# Raft-kv: a verified model

This project models the consensus core of raft-kv, a C++ port of etcd's Raft, and proves that it is safe, that it does
what it is for, and that any majority of the voters can always get on with it. The protocol is
the one of Ongaro and Ousterhout, "In Search of an Understandable Consensus Algorithm (Extended Version)"; the names
of the main results are those of its Figure 3. `dafny verify dfyconfig.toml` checks everything.

## How it is built

The raft node exists twice. `RaftCore.dfy` gives it as a value with one function per method of the source, branch by
branch; an abort (`LOG_FATAL`) sets a flag, and sent messages pile up in an outbox. `Raft.dfy` gives it as the source
does, as an object whose methods update fields and loop over the peers, and proves every method to do exactly what the
function says. Runs are sequences of actions of a cluster of such nodes (`Cluster.dfy`), so a theorem about runs is a
theorem about the object.

- **Runs.** A message, once sent, may be delivered any number of times, in any order, or never. A node handles one
  message or local event at a time, persists, and only then sends, as `pull_ready_events` does. A restart keeps term,
  vote and log, and any commit index not above the old one: `WAL::save` does not sync a new commit index alone.
  `Recovery.dfy` proves that this is what the write-ahead log yields: steps of a run that have been saved survive a
  crash as just such a restart (`Recovery.CrashIsAnAction`). Steps whose outcome was neither persisted nor sent when the
  node stopped are steps that the run does not contain. Local events (election timer, heartbeat timer, quorum check,
  transfer of leadership, unreachable peer, client proposal) may occur at any moment.
  `inLease` of `Cluster.Deliver` is whether the leader lease is running, at the choice of the environment.
- **History and invariant.** `Invariant.dfy` adds a history of leader logs, votes, campaigns and acknowledgements, and
  an inductive invariant that ties nodes and messages in flight to it. `HistorySteps` proves what each kind of growth
  of the history keeps, among it that a new leader holds whatever is or may still be committed; `NodeSteps`,
  `FollowerSteps`, `LeaderSteps` and `StepProof` prove that every branch of every method keeps the invariant;
  `Safety.dfy` draws the conclusions for whole runs, `Monotone.dfy` what never goes back.
- **What is done.** Safety alone would hold of nodes that do nothing. `NodeDuties.dfy` and the rules at the end of
  `FlowControl.dfy` say outright, for every state of a node, what each of its methods does: when exactly a vote is
  given, the commit index moves, an append is accepted, and what is sent to whom. Over runs, `Commitment.dfy` proves
  that a leader has committed everything of its term that a majority is known to have, and `Validity.dfy` that nothing
  is in a log that nobody proposed.
- **Progress.** `Continuations.dfy` is about carrying a run on by nodes of one majority alone. `CatchUp.dfy` (a follower
  catches up), `Elections.dfy` and `PreElections.dfy` (a leader comes about) lead to `Availability.dfy`: after any run
  every majority can elect a leader, replicate any proposal and commit it, and no smaller group can.
- **The log.** `LogModel.dfy` is the log as one value. `LogStores.dfy` and `RaftLog.dfy` are the stable store behind
  a dummy entry, the unstable tail with an incoming snapshot, and the log object over both; all three are proved
  against the one value. `ReadyLoop.dfy` is the loop that persists, sends and applies; `ServerRun.dfy` proves that over
  whole runs it applies what an ideal server applies that keeps one log and never compacts it.
- **Flow control.** `Probing.dfy` proves that leader and follower find the point where their logs meet.
  `ProgressModel.dfy` holds the values, `ProgressObjects.dfy` the ring buffer and the progress record,
  `QuorumCommit.dfy` the commit index, `ReadOnly.dfy` the read-index queue.
- **Bytes.** `WalFormat.dfy` and `Wal.dfy` are the write-ahead log, `SnapshotRead.dfy` is about reading it from a
  snapshot. `EntrySize.dfy` is the size limit of a batch, `MsgPack.dfy` what an entry's size means. `Glob.dfy` is the
  matcher of the KEYS command.

## Where the code departs from its intent

The model does what the code does. The member named with a departure states exactly when the code meets its intent, or,
where there is no such condition, what it does instead.

- `step_candidate` counts a granted pre-vote as a vote (raft-kv/raft/raft.cpp:691-692), against the comment above it.
  Election safety then holds in every run if and only if pre-vote is off or there is one voter
  (`PreVoteFlaw.ElectionSafetyNeedsNoPreVote`); the server switches pre-vote on (raft-kv/server/raft_node.cpp:45). The
  theorems of `Safety` hold of all runs without pre-vote, and with
  pre-vote of all runs in which no granted pre-vote reaches a candidate, which is the filter the comment describes.
- `free_first_one` passes a ring position where a value is meant (raft-kv/raft/progress.cpp:68-70):
  `ProgressObjects.FreeFirstOneIsRight`, `ProgressObjects.HeartbeatsFreeNothing`. The invariants hold nevertheless.
- A stale probe rejection can take `next` down to `match` or below (raft-kv/raft/progress.cpp:195-204), and nothing else
  can: `FlowControl.NextStaysAboveMatch`, `FlowControl.StaleRejectionOccurs`. Safety does not depend on it.
- `applied_to` assigns an index that is out of range (raft-kv/raft/raft_log.cpp:158-162): `RaftLogs.RaftLog.AppliedTo`
  has no precondition; `ReadyLoop.Server.PullReadyEvents` never passes such an index.
- The test for read states in a Ready is inverted (raft-kv/raft/ready.cpp:40): the loop gives up, and leaves the read
  states, exactly when they are all there is to report (`ReadyLoop.Server.PullReadyEvents`).
- The stored record length is clipped but all data are stored (raft-kv/wal/wal.h:34): `WalFormat.RecordRoundTrip`.
- Records at or below a later snapshot are skipped when the log is read from there, and with them the cuts they stand
  for (raft-kv/wal/wal.cpp:257). What is read is the live log behind the snapshot if and only if that log goes on behind
  the snapshot or nothing was ever saved behind it (`SnapshotRead.ReadingFromSnapshot`); otherwise overwritten entries
  come back, and the last term can go back (`SnapshotRead.OverwrittenEntryComesBack`).
- Any snapshot record satisfies the search for the starting snapshot (raft-kv/wal/wal.cpp:227). The answer is right if
  and only if that snapshot is there or none is (`SnapshotRead.SnapshotSearch`); as every file begins with a snapshot
  record, the search never fails (`SnapshotRead.SearchNeverFails`).
- An empty string never matches a non-empty pattern (raft-kv/server/redis_store.cpp:30): `Glob.EmptyStringFlaw`.
- `send` compares a term with a message type (raft-kv/raft/raft.cpp:984), so forwarded proposals carry the sender's
  term. No member is about this: the model lets them, and nothing depends on it.

## Model

| member | source | states |
|---|---|---|
| `Safety.ElectionSafety` | raft-kv/raft/raft.cpp:669-718 | In every run with loss, repetition, reordering and restarts, any two nodes that lead the same term, at whatever times, are the same node (Figure 3, Election Safety) |
| `Safety.LeaderAppendOnly` | raft-kv/raft/raft.cpp:1038-1063 | Throughout its term a leader's log only grows by appending (Figure 3, Leader Append-Only) |
| `Safety.LogMatching` | raft-kv/raft/raft_log.cpp:32-94 | In every run, any two logs at any two moments that have the same term at an index are equal up to it, and indexes have no gap (Figure 3, Log Matching) |
| `Safety.LeaderCompleteness` | raft-kv/raft/raft_log.cpp:116-127 | Whatever any node ever knew to be committed is from then on in the log of every leader of that or a later term (Figure 3, Leader Completeness) |
| `Safety.StateMachineSafety` | raft-kv/raft/raft_log.cpp:293-307 | Any two nodes, at any two moments, hold the same entry at every index at or below both their commit indexes (Figure 3, State Machine Safety) |
| `Safety.CommittedOnMajority` | raft-kv/raft/raft.cpp:1247-1263 | Whatever was once committed is from then on, at every moment, in the logs of a majority of the voters |
| `Safety.MatchSoundness` | raft-kv/raft/raft.cpp:495-555 | A follower still in the leader's term agrees with the leader's log up to the recorded match index, so a heartbeat may carry min(match, commit) |
| `Safety.NoPanic` | raft-kv/raft/raft_log.cpp:40-75 | No run reaches an abort: not the conflict with a committed entry, not the append below or beyond the log, not the commit beyond the last index, not an illegal role change; entries in flight are gapless |
| `Safety.VotesOnce` | raft-kv/raft/raft.cpp:315-382 | Within one term a node never changes its vote, restarts included |
| `Safety.WindowsOk` | raft-kv/raft/raft.cpp:1165-1203 | At a leader every follower's window is strictly increasing between match and next, holds at most its size, and next is between 1 and the end of the log plus one |
| `Safety.ActionOk` | raft-kv/raft/raft.cpp:181-389 | Every delivery, local event and restart keeps the inductive invariant, and only adds to the history |
| `Safety.InitOk` | raft-kv/raft/raft.cpp:75-82 | A freshly started cluster satisfies the invariant |
| `Safety.CrashOk` | raft-kv/raft/raft.cpp:1310-1319 | A restart with the same term, vote and log, and any commit index not above the old one, keeps the invariant |
| `Monotone.TermNeverDecreases` | raft-kv/raft/raft.cpp:1265-1269 | Over a whole run the term of a node never goes back, restarts included |
| `Monotone.CommitNeverDecreases` | raft-kv/raft/raft_log.cpp:293-307 | Between restarts the commit index of a node never goes back |
| `Monotone.MatchNeverDecreases` | raft-kv/raft/raft.cpp:495-562 | Between two moments at which a node leads the same term it has led it all along, and no follower's match index has gone back |
| `Monotone.NoSecondCandidacy` | raft-kv/raft/raft.cpp:153-164 | A node that has led a term is never a candidate of that term again |
| `Monotone.StepForward` | raft-kv/raft/raft.cpp:181-389 | One message never lowers term or commit index, never changes the vote of a term, never empties a log, and makes a node leader of its present term only from candidate |
| `PreVoteFlaw.ElectionSafetyNeedsNoPreVote` | raft-kv/raft/raft.cpp:691-703 | Election safety holds in every run if and only if pre-vote is off or there is a single voter |
| `PreVoteFlaw.TwoLeaders` | raft-kv/raft/raft.cpp:691-703 | With pre-vote and two voters or more, a run that ends with two leaders in one term, for every such cluster |
| `PreVoteFlaw.Round` | raft-kv/raft/raft.cpp:1007-1027 | Delivering the granted pre-votes of a majority makes a pre-candidate candidate; delivering the same ones again makes it leader |
| `PreVoteFlaw.GrantOne` | raft-kv/raft/raft.cpp:327-357 | A voter that has not yet entered the next term grants every pre-vote for it and does not change |
| `StepProof.StepOk` | raft-kv/raft/raft.cpp:181-389 | Handling any message keeps the node, and the messages it sends, in agreement with the history |
| `StepProof.LocalOk` | raft-kv/raft/raft.cpp:293-314 | So does every local event: campaign, heartbeat, quorum check, unreachable peer, proposal |
| `StepProof.RestartOk` | raft-kv/raft/raft.cpp:1310-1319 | So does a restart |
| `StepProof.CampaignElectionOk` | raft-kv/raft/raft.cpp:925-968 | A campaign enters a term in which the node has neither voted nor won, and puts its log on record |
| `StepProof.OnVoteRespOk` | raft-kv/raft/raft.cpp:690-707 | Counting an answer, and winning or losing by it, keeps the invariant |
| `NodeSteps.HandleVoteOk` | raft-kv/raft/raft.cpp:315-382 | Answering a vote request, either way, keeps the invariant: a granted vote goes to a candidate whose log is at least as up to date, and is the only one of its term. When it is granted is `NodeDuties.VoteRule` |
| `NodeSteps.BecomeFollowerOk` | raft-kv/raft/raft.cpp:142-151 | Entering a later term keeps everything acknowledged in earlier terms that may still be committed |
| `FollowerSteps.HandleAppendEntriesOk` | raft-kv/raft/raft.cpp:800-841 | After an append the follower's log agrees with the leader of the term as far as it acknowledges |
| `FollowerSteps.HandleHeartbeatOk` | raft-kv/raft/raft.cpp:843-853 | The commit index of a heartbeat is within the follower's log and committed |
| `LeaderSteps.BecomeLeaderOk` | raft-kv/raft/raft.cpp:102-141 | A candidate with a majority of votes becomes the recorded leader of its term, and its log holds everything an earlier term committed or may still commit |
| `LeaderSteps.MaybeCommitOk` | raft-kv/raft/raft.cpp:1247-1263 | Where the commit index moves is acknowledged by a majority and of the present term, so the invariant stays. That it does move is `NodeDuties.CommitRule`, over runs `Commitment.LeaderCommitsAll` |
| `LeaderSteps.AppendEntryOk` | raft-kv/raft/raft.cpp:1038-1063 | The leader's own entries extend the log of the term, and the invariant stays. What they carry is `NodeDuties.AppendRule`, over runs `Validity.OnlyProposedEntries` |
| `LeaderSteps.MaybeSendAppendOk` | raft-kv/raft/raft.cpp:1127-1209 | What is sent is a segment of the leader's log together with the term before it |
| `LeaderSteps.AcceptedOk` | raft-kv/raft/raft.cpp:512-555 | An accepted append keeps match below what is acknowledged, through commit, broadcast and the sending loop |
| `LeaderSteps.RejectedOk` | raft-kv/raft/raft.cpp:497-511 | A rejected append keeps the flow-control invariant |
| `LeaderSteps.OnHeartbeatRespOk` | raft-kv/raft/raft.cpp:558-567 | A heartbeat response keeps the flow-control invariant, whichever slots it frees |
| `HistorySteps.NewLeaderComplete` | raft-kv/raft/raft_log.h:55-58 | Quorum intersection and the up-to-date comparison: the log of a newly elected leader contains every index that is or may still be committed in an earlier term |
| `HistorySteps.UpToDateHolds` | raft-kv/raft/raft_log.h:55-58 | A log that is at least as up to date as a voter's log contains what the voter has and may be committed |
| `Quorum.QuorumSizeIsMajority` | raft-kv/raft/raft.h:24 | A set of voters has at least this size if and only if it is more than half of them, so a majority can be missing as many as possible |
| `Quorum.Intersect` | raft-kv/raft/raft.h:24 | Any two majorities share a voter |
| `Quorum.QuorumSize` | raft-kv/raft/raft.h:24 | More than half of the voters, and one less is no more than half |
| `NodeDuties.CommitRule` | raft-kv/raft/raft.cpp:1247-1263 | For the largest index i that more than half of the voters have matched: the commit index becomes i, and the answer is yes, if and only if i lies above it and the entry there is of the present term; otherwise nothing changes |
| `NodeDuties.CommitLeavesNothing` | raft-kv/raft/raft.cpp:1247-1263 | Afterwards no index of the present term that a majority has matched lies above the commit index |
| `NodeDuties.VoteRule` | raft-kv/raft/raft.cpp:327-380 | A vote request of the present term is granted and recorded if and only if the vote is the asker's already, or there is neither vote nor leader, and the asker's last term and length are at least its own; otherwise it is refused and the vote stays |
| `NodeDuties.PreVoteRule` | raft-kv/raft/raft.cpp:327-380 | A pre-vote is granted on the same terms, or for a later term whatever the vote, and is never recorded |
| `NodeDuties.LaterVoteRule` | raft-kv/raft/raft.cpp:184-230 | A request of a later term is ignored while the lease of a known leader runs; otherwise the voter enters that term, and votes if the asker is up to date |
| `NodeDuties.CampaignRule` | raft-kv/raft/raft.cpp:925-968 | A campaign enters the next term with the node's own vote and asks every other voter with its last index and term; a single voter has won |
| `NodeDuties.PreCampaignRule` | raft-kv/raft/raft.cpp:925-968 | A pre-campaign asks every other voter about the next term and changes neither term nor vote |
| `NodeDuties.LeaderRule` | raft-kv/raft/raft.cpp:102-141 | A new leader keeps its log, adds one empty entry of its term, and begins to probe every other voter at the end of its log |
| `NodeDuties.PollRule` | raft-kv/raft/raft.cpp:1007-1027 | The first answer of a voter counts, a second one does not |
| `NodeDuties.VoteCountRule` | raft-kv/raft/raft.cpp:690-707 | The answer that brings the grants to the quorum size makes a candidate leader, with an append on its way to every other voter; the one that brings the refusals there makes it give up; otherwise it waits |
| `NodeDuties.AppendRule` | raft-kv/raft/raft.cpp:1038-1063 | The log is the old one, followed by one entry for each payload, in order, with its type and its data, the present term and the next index |
| `NodeDuties.ProposalRule` | raft-kv/raft/raft.cpp:404-449 | A proposal at a leader, local or forwarded, ends its log, and an append goes to every follower that is not held back |
| `NodeDuties.ForwardRule` | raft-kv/raft/raft.cpp:720-734 | A follower hands a proposal unchanged to the leader it knows, if it may; otherwise it is dropped |
| `NodeDuties.RestartRule` | raft-kv/raft/raft.cpp:1310-1319 | A restarted node has its term, vote and log, follows nobody, and knows nothing of the others; it aborts exactly on a commit index beyond its log |
| `NodeDuties.BroadcastRule` | raft-kv/raft/raft.cpp:1223-1230 | A broadcast sends to every other follower that is not held back, from the index next for it on, and to nobody else |
| `NodeDuties.HeartbeatRule` | raft-kv/raft/raft.cpp:1232-1245 | A heartbeat goes to exactly the other followers, with the smaller of match and commit index |
| `NodeDuties.HeartbeatCommitRule` | raft-kv/raft/raft.cpp:843-853 | A heartbeat moves the commit index up to what it says within the log, aborts beyond it, and is answered |
| `NodeDuties.HeartbeatRespRule` | raft-kv/raft/raft.cpp:556-565 | An answered heartbeat lifts the pause of a probe: a follower that lacks something is sent the next append at once |
| `NodeDuties.SendReaches` | raft-kv/raft/raft.cpp:1127-1209 | What nothing holds back is sent: right behind the index asked for, with its term, the commit index, and entries if there are any |
| `NodeDuties.RejectedRule` | raft-kv/raft/raft.cpp:497-509 | A rejection that counts is followed at once by a probe no higher than the rejected index, nor than the hint unless that is below match |
| `NodeDuties.AcceptedRule` | raft-kv/raft/raft.cpp:511-545 | An acceptance with news moves match, then commits what the commit rule allows and tells all the others, and sends on until nothing is left or the follower is held back |
| `NodeDuties.SendWhileExhausts` | raft-kv/raft/raft.cpp:538-545 | The sending loop stops only when everything is sent or the follower is held back |
| `NodeDuties.AppendAcceptRule` | raft-kv/raft/raft.cpp:810-826 | An append at or above the commit index whose previous entry is in the log is accepted: entries the log has stay, with all that follows if it has them all; from the first one that differs on, the log is cut and continued |
| `NodeDuties.AppendRefuseRule` | raft-kv/raft/raft.cpp:800-841 | One whose previous entry is missing is rejected with the end of the log as a hint, one below the commit index answered with the commit index; nothing changes |
| `NodeDuties.EarlierTermRule` | raft-kv/raft/raft.cpp:231-283 | A message of an earlier term changes nothing; only a leader of that term, and a node asking for a pre-vote, are told of the present one |
| `NodeDuties.LaterTermRule` | raft-kv/raft/raft.cpp:204-230 | A message of a later term takes the node there without a vote, except pre-votes and requests under a lease; from a leader it learns who leads |
| `NodeDuties.SameTermRule` | raft-kv/raft/raft.cpp:678-685 | An append or heartbeat of the present term makes whoever does not lead a follower of its sender |
| `NodeDuties.TransferRule` | raft-kv/raft/raft.cpp:762-776 | The target of a transfer campaigns at once, without pre-vote; only a follower does |
| `NodeDuties.QuorumCheckRule` | raft-kv/raft/raft.cpp:1327-1339 | A leader steps down at the quorum check if and only if those it has heard of, with itself, are no more than half of the voters |
| `Commitment.LeaderCommitsAll` | raft-kv/raft/raft.cpp:1247-1263 | At every moment of every run: a leader has committed every index of its own term that more than half of the voters are known to have, and counts its whole log as matched by itself |
| `Commitment.MatchedByMajorityIsCommitted` | raft-kv/raft/raft.cpp:531-532 | Once a majority has matched the whole log of a leader, all of it is committed |
| `Validity.OnlyProposedEntries` | raft-kv/raft/raft.cpp:1041-1048 | At every moment of every run, an entry of any log belongs to the bootstrap, is the empty entry of a new leader, or has the type and data of something a client proposed before |
| `Availability.MajorityMakesProgress` | raft-kv/raft/raft.cpp:286-389 | After any run, whatever was lost, repeated or restarted, and for every majority and proposal: the run can be carried on, by messages to and events at nodes of that majority alone, until one of them leads, the proposal ends its log, and all of them hold that log and have committed all of it; with pre-vote or without |
| `Availability.MajorityCanElect` | raft-kv/raft/raft.cpp:304-313 | The election of that |
| `Availability.MajorityReplicates` | raft-kv/raft/raft.cpp:495-565 | The replication of that, from any leader none of the majority is ahead of |
| `Availability.ProgressKeepsCommitted` | raft-kv/raft/raft_log.h:55-58 | Such a leader's log has everything any node had committed before |
| `Availability.AnyoneCanWin` | raft-kv/raft/raft.cpp:925-968 | Every voter can become the leader of a fresh cluster |
| `Availability.MinorityElectsNobody` | raft-kv/raft/raft.cpp:690-707 | In a run in which only some of the voters ever do anything, a leader means that those are a majority |
| `Availability.MajoritiesAndNoOthers` | raft-kv/raft/raft.h:24 | So a group of voters can elect a leader by itself if and only if it is more than half of them |
| `Elections.MajorityElectsLeader` | raft-kv/raft/raft.cpp:286-389 | After any run without pre-vote, the nodes of any majority can bring about a leader among them that none of them is ahead of, by timeouts, requests and answers alone |
| `Elections.BestIsElected` | raft-kv/raft/raft.cpp:327-380 | That leader is one whose log no other of the majority beats |
| `PreElections.PreVoteElectsLeader` | raft-kv/raft/raft.cpp:304-313 | The same with pre-vote, and without a granted pre-vote ever reaching a candidate on the way |
| `PreElections.PreCampaignsBeyond` | raft-kv/raft/raft.cpp:925-939 | Asking again and again, and learning later terms from the refusals, a node comes to campaign in any term it has to |
| `CatchUp.CatchesUp` | raft-kv/raft/raft.cpp:495-565 | A leader can bring any follower that is not ahead of it to hold its whole log, whatever its progress record says, by heartbeats, appends and their answers |
| `CatchUp.OneRound` | raft-kv/raft/raft.cpp:495-565 | One round of heartbeat, append and answers brings more to match, or the next probe closer |
| `FlowControl.MaybeUpdateOk` | raft-kv/raft/progress.cpp:144-164 | An accepted index moves match to the maximum and keeps the window increasing above it |
| `FlowControl.MaybeDecreaseOk` | raft-kv/raft/progress.cpp:169-205 | A rejection that counts leaves match alone and next within the log |
| `FlowControl.AppendMessage` | raft-kv/raft/raft.cpp:1127-1190 | The message starts where next points, carries consecutive entries of the log and the term before them |
| `FlowControl.AppendForOk` | raft-kv/raft/raft.cpp:1184-1203 | Sending adds a value only to a window with room, above all others, and moves next behind it |
| `FlowControl.HeartbeatRespOk` | raft-kv/raft/raft.cpp:558-567 | A heartbeat response leaves match alone and the window valid |
| `FlowControl.ProbeKeepsNextAboveMatch` | raft-kv/raft/progress.cpp:195-204 | After a counted probe rejection next stays above match if and only if match is 0, or the rejected index is above match and the hint not below it |
| `FlowControl.NextStaysAboveMatch` | raft-kv/raft/progress.cpp:153-208 | Over every event at a progress record, in every state: next stays above match if and only if the event is not a stale rejection of a probe |
| `FlowControl.StaleRejectionOccurs` | raft-kv/raft/raft.cpp:500-517 | The exception occurs with nothing worse than a repeated answer: from a fresh record rejection, probe, acceptance, lost connection and the same rejection again bring next from 3 down to 1 with match at 2 |
| `FlowControl.SendRule` | raft-kv/raft/progress.cpp:117-136 | An append is sent if and only if there is no probe in flight, no full window and no snapshot pending, and there is something to send or an empty one is wanted |
| `FlowControl.OneProbeAtATime` | raft-kv/raft/raft.cpp:1184-1203 | A probe that carries something is the last until it is answered |
| `FlowControl.PipelineRule` | raft-kv/raft/raft.cpp:1184-1203 | In replication what was sent joins the window, and the next append begins behind it |
| `FlowControl.RejectionRule` | raft-kv/raft/progress.cpp:169-205 | A rejection counts if and only if it can answer something outstanding; it leads back behind match in replication, and otherwise to the lower of rejected index and hint, but at least 1 |
| `FlowControl.AcceptanceRule` | raft-kv/raft/progress.cpp:144-164 | Match and next become maxima, and the pause is lifted if and only if there is news |
| `FlowControl.NewsRule` | raft-kv/raft/raft.cpp:513-530 | News turn a probe to replication from there on and an overtaken snapshot to probing; in replication the window loses exactly what is acknowledged |
| `ProgressModel.Freed` | raft-kv/raft/progress.cpp:40-66 | The longest run at the front of the window of values at most the given one |
| `ProgressObjects.FreeToIsExact` | raft-kv/raft/progress.cpp:40-66 | In an increasing window exactly the values above the acknowledged one remain, in order |
| `ProgressObjects.FreeFirstOneIsRight` | raft-kv/raft/progress.cpp:68-70 | free_first_one frees exactly the oldest value if and only if that value is at most its ring position and the next one is larger; it frees nothing if and only if the oldest value is larger than its position |
| `ProgressObjects.HeartbeatsFreeNothing` | raft-kv/raft/raft.cpp:561-564 | Once the oldest value has reached the window size, no heartbeat response resumes a full window |
| `ProgressObjects.InFlights.constructor` | raft-kv/raft/progress.h:28-29 | An empty window without memory |
| `ProgressObjects.InFlights.Reset` | raft-kv/raft/progress.h:30-33 | The window is empty again |
| `ProgressObjects.InFlights.IsFull` | raft-kv/raft/progress.h:34 | As many values as slots |
| `ProgressObjects.InFlights.Grow` | raft-kv/raft/progress.cpp:26-36 | Doubling keeps every queued value at its place and makes room for the next one, within the window size |
| `ProgressObjects.InFlights.Add` | raft-kv/raft/progress.cpp:18-39 | Appends to the queue whatever the wrap-around; aborts exactly on a full window |
| `ProgressObjects.InFlights.SkipTo` | raft-kv/raft/progress.cpp:45-58 | Counts the maximal run of values at most the given one, and finds the ring position behind it |
| `ProgressObjects.InFlights.FreeTo` | raft-kv/raft/progress.cpp:40-66 | Removes the maximal front run of values at most the given one |
| `ProgressObjects.InFlights.FreeFirstOne` | raft-kv/raft/progress.cpp:68-70 | Removes the values at most the ring position |
| `ProgressObjects.Progress.constructor` | raft-kv/raft/progress.h:56-59 | A probing record with nothing matched |
| `ProgressObjects.Progress.ResetState` | raft-kv/raft/progress.cpp:101-106 | Empties the window and clears pause and pending snapshot |
| `ProgressObjects.Progress.BecomeReplicate` | raft-kv/raft/progress.cpp:72-76 | Next is right behind match |
| `ProgressObjects.Progress.BecomeProbe` | raft-kv/raft/progress.cpp:78-93 | Next is behind match, and behind a pending snapshot |
| `ProgressObjects.Progress.BecomeSnapshot` | raft-kv/raft/progress.cpp:95-99 | Next stays; the snapshot is pending |
| `ProgressObjects.Progress.IsPaused` | raft-kv/raft/progress.cpp:117-136 | Paused by a probe in flight, a full window or a snapshot |
| `ProgressObjects.Progress.MaybeUpdate` | raft-kv/raft/progress.cpp:144-164 | Moves match forward only, and next behind the index |
| `ProgressObjects.Progress.MaybeDecreaseTo` | raft-kv/raft/progress.cpp:169-205 | Answers whether the rejection counts, and where to probe next |
| `ProgressObjects.Progress.AfterUpdate` | raft-kv/raft/raft.cpp:515-537 | Probing turns to replication, an overtaken snapshot to probing, a window is freed |
| `ProgressObjects.Progress.OnHeartbeatResp` | raft-kv/raft/raft.cpp:558-564 | Resumes and hands the ring position to free_to on a full window |
| `Probing.OneAnswer` | raft-kv/raft/raft.cpp:800-841 | A probed follower answers once; it rejects exactly when the logs differ at the probed index above its commit index, and then names that index and the end of its log |
| `Probing.RejectionHelps` | raft-kv/raft/progress.cpp:195-204 | The rejection of a probe counts, and the next probe is strictly lower, not beyond the follower's log, and not held back |
| `Probing.ProbeUntilAccepted` | raft-kv/raft/raft.cpp:495-511 | Whatever the two logs, probing ends with an accepted probe, after fewer rejections than next |
| `Probing.ProbingConverges` | raft-kv/raft/raft.cpp:495-545 | With log matching, the accepted probe brings the follower's log into agreement with the leader's up to the answered index, commits nothing wrong, and takes the leader to replication from there |
| `RaftNode.Raft.constructor` | raft-kv/raft/raft.cpp:30-98 | Log, term and vote as given; everything else afresh |
| `RaftNode.Raft.Push` | raft-kv/raft/raft.cpp:970-989 | The message joins the outbox |
| `RaftNode.Raft.SendVote` | raft-kv/raft/raft.cpp:970-978 | A vote message without a term aborts |
| `RaftNode.Raft.ResetProgress` | raft-kv/raft/raft.cpp:1280-1289 | Every peer is tracked afresh from the end of the log, itself as fully matched |
| `RaftNode.Raft.Reset` | raft-kv/raft/raft.cpp:1265-1296 | The vote is forgotten exactly when the term changes |
| `RaftNode.Raft.BecomeFollower` | raft-kv/raft/raft.cpp:142-151 | Refines the value model of the same step |
| `RaftNode.Raft.BecomeCandidate` | raft-kv/raft/raft.cpp:153-164 | Next term, vote for itself; aborts from leader |
| `RaftNode.Raft.BecomePreCandidate` | raft-kv/raft/raft.cpp:166-179 | Term and vote untouched |
| `RaftNode.Raft.BecomeLeader` | raft-kv/raft/raft.cpp:102-141 | Ends with the empty entry appended and perhaps committed |
| `RaftNode.Raft.AppendEntry` | raft-kv/raft/raft.cpp:1038-1063 | Refines the value model, in which type and data of the payloads, in order, with the present term and the next indexes, join the log (`NodeDuties.AppendRule`) |
| `RaftNode.Raft.MaybeCommit` | raft-kv/raft/raft.cpp:1247-1263 | Fills the buffer by a loop, sorts it, takes the element at size minus quorum: the outcome is that of the value model, whose commit index moves to the largest index a majority has matched if and only if that is higher and of the present term (`NodeDuties.CommitRule`) |
| `RaftNode.Raft.FillMatchBuf` | raft-kv/raft/raft.cpp:1252-1255 | The buffer lists every voter's match index once |
| `RaftNode.Raft.CommitTo` | raft-kv/raft/raft.cpp:1262 | The commit index moves forward only, and aborts beyond the log |
| `RaftNode.Raft.MaybeSendAppend` | raft-kv/raft/raft.cpp:1127-1209 | Refines the value model: pause, entries, message, window |
| `RaftNode.Raft.SendAppend` | raft-kv/raft/raft.cpp:1124-1126 | As the previous one, also with nothing to send |
| `RaftNode.Raft.SendWhile` | raft-kv/raft/raft.cpp:541-545 | The sending loop terminates and does what repeated sending does |
| `RaftNode.Raft.BcastAppend` | raft-kv/raft/raft.cpp:1223-1230 | One append to every peer but itself, in whatever order the map yields them |
| `RaftNode.Raft.BcastHeartbeat` | raft-kv/raft/raft.cpp:1232-1245 | One heartbeat to every peer with min(match, commit) |
| `RaftNode.Raft.Poll` | raft-kv/raft/raft.cpp:1007-1027 | The first answer of a node counts; the result is the number of grants |
| `RaftNode.Raft.SendRequests` | raft-kv/raft/raft.cpp:942-967 | One request to every peer with the own last index and term |
| `RaftNode.Raft.Campaign` | raft-kv/raft/raft.cpp:925-968 | Refines both campaigns, the pre-vote one by recursion |
| `RaftNode.Raft.HandleVote` | raft-kv/raft/raft.cpp:315-382 | Refines the value model, in which the vote is given, and recorded, if and only if it is free and the asker up to date (`NodeDuties.VoteRule`, `NodeDuties.PreVoteRule`) |
| `RaftNode.Raft.HandleAppendEntries` | raft-kv/raft/raft.cpp:800-841 | Refines the value model: stale, accepted or rejected append |
| `RaftNode.Raft.HandleHeartbeat` | raft-kv/raft/raft.cpp:843-853 | Commit, then answer |
| `RaftNode.Raft.StepFollower` | raft-kv/raft/raft.cpp:720-798 | Refines the value model |
| `RaftNode.Raft.OnVoteResp` | raft-kv/raft/raft.cpp:690-707 | Won, lost or undecided after one more answer |
| `RaftNode.Raft.StepCandidate` | raft-kv/raft/raft.cpp:669-718 | Refines the value model |
| `RaftNode.Raft.OnRejected` | raft-kv/raft/raft.cpp:497-511 | Refines the value model: reconsider, probe, send |
| `RaftNode.Raft.OnAccepted` | raft-kv/raft/raft.cpp:512-555 | Refines the value model: update, change of state, then what follows |
| `RaftNode.Raft.AfterMatch` | raft-kv/raft/raft.cpp:532-545 | Commit and broadcast, or wake up one peer, then send while there is room |
| `RaftNode.Raft.OnHeartbeatResp` | raft-kv/raft/raft.cpp:558-567 | Refines the value model |
| `RaftNode.Raft.Propose` | raft-kv/raft/raft.cpp:399-445 | An empty proposal aborts; otherwise the payloads end the log and the append goes to every peer not held back (`NodeDuties.ProposalRule`) |
| `RaftNode.Raft.StepLeader` | raft-kv/raft/raft.cpp:391-562 | Refines the value model |
| `RaftNode.Raft.Dispatch` | raft-kv/raft/raft.cpp:293-389 | By kind of message, then by role |
| `RaftNode.Raft.Step` | raft-kv/raft/raft.cpp:181-389 | One message: the object ends in exactly the state of the value model, so every theorem about runs holds of it |
| `RaftNode.Raft.CheckQuorumActive` | raft-kv/raft/raft.cpp:1327-1339 | Whether more than half of the voters, itself included, were heard of |
| `RaftNode.Raft.Local` | raft-kv/raft/raft.cpp:293-314 | One local event, likewise |
| `RaftNode.CountGranted` | raft-kv/raft/raft.cpp:1019-1025 | The loop counts the granted votes |
| `RaftNode.CountActive` | raft-kv/raft/raft.cpp:1328-1337 | The loop counts the active peers |
| `RaftNode.ListMatches` | raft-kv/raft/raft.cpp:1252-1255 | The loop lists every match index once |
| `RaftNode.BcastToOneMore` | raft-kv/raft/raft.cpp:1211-1230 | The order of the broadcast does not matter: what one peer is sent is independent of the others |
| `QuorumCommit.SortedRankIsQuorumIndex` | raft-kv/raft/raft.cpp:1255-1259 | For any non-empty voter map, the sorted element at size minus quorum is the largest index that more than half of the voters have matched |
| `QuorumCommit.CountAtRank` | raft-kv/raft/raft.cpp:1255-1259 | At least q elements of an ascending sequence reach j exactly when j is at most its element at size minus q |
| `QuorumCommit.CountOfPermutation` | raft-kv/raft/raft.cpp:1255 | Sorting does not change how many elements reach an index |
| `QuorumCommit.Sort` | raft-kv/raft/raft.cpp:1255 | An ascending permutation |
| `LogModel.MaybeAppendContract` | raft-kv/raft/raft_log.cpp:32-94 | With log matching: no abort; success exactly when the previous entry matches; agreement with the sender up to the last new index; a log that holds the entries is not shortened; nothing committed changes; the commit index becomes max(old, min(leader commit, last new)) within the log |
| `LogModel.ConflictInRange` | raft-kv/raft/raft_log.cpp:80-94 | The conflict is the first entry whose term differs, and every earlier one matches; 0 exactly when all match |
| `LogModel.MatchedPrefix` | raft-kv/raft/raft_log.cpp:210-217 | A matching previous entry means an equal prefix |
| `LogModel.AppendAtConflict` | raft-kv/raft/raft_log.cpp:43-49 | The first conflict is above everything committed, and cutting there yields the sender's log |
| `RaftLogs.JoinIsUnique` | raft-kv/raft/raft_log.h:97-100 | The two stores determine the log |
| `RaftLogs.JoinTerm` | raft-kv/raft/raft_log.cpp:226-249 | Where a term is looked up: tail, snapshot or store |
| `RaftLogs.OverwriteTail` | raft-kv/raft/unstable.cpp:89-112 | Overwriting the tail, even from below its beginning, is cut-and-concatenate on the whole log |
| `RaftLogs.AppendToStore` | raft-kv/raft/storage.cpp:96-134 | Persisting a batch that begins in the tail does not change the log |
| `RaftLogs.HandOver` | raft-kv/raft/unstable.cpp:60-72 | Telling the tail that an index is stable leaves the log unchanged if and only if the store holds the same entries up to it |
| `RaftLogs.PersistKeepsLog` | raft-kv/raft/unstable.cpp:60-72 | Store append followed by stable_to is the identity on the log, even when an overwrite came in between, by the term guard and log matching |
| `RaftLogs.PersistPrefix` | raft-kv/raft/unstable.cpp:60-72 | Without an overwrite it is the identity unconditionally |
| `RaftLogs.PersistSnapshot` | raft-kv/raft/unstable.cpp:74-87 | Persisting a snapshot and the entries behind it is the identity on the log |
| `RaftLogs.CompactDropsPrefix` | raft-kv/raft/storage.cpp:71-94 | Compaction up to a stable index drops a prefix of the log and nothing else |
| `RaftLogs.RangeSplits` | raft-kv/raft/raft_log.cpp:165-194 | A range of the log is its stable part followed by its unstable part |
| `RaftLogs.MatchedIs` | raft-kv/raft/raft_log.cpp:35-60 | The cases of an append once the previous entry matches |
| `RaftLogs.RaftLog.constructor` | raft-kv/raft/raft_log.cpp:5-23 | The log is the store; both cursors at its base |
| `RaftLogs.RaftLog.FirstIndex` | raft-kv/raft/raft_log.cpp:250-262 | First index of the one log |
| `RaftLogs.RaftLog.LastIndex` | raft-kv/raft/raft_log.cpp:264-276 | Last index of the one log |
| `RaftLogs.RaftLog.Term` | raft-kv/raft/raft_log.cpp:226-249 | The lookup never fails, and is the lookup in the one log |
| `RaftLogs.RaftLog.MatchTerm` | raft-kv/raft/raft_log.cpp:210-217 | Comparison in the one log |
| `RaftLogs.RaftLog.LastTerm` | raft-kv/raft/raft_log.cpp:219-224 | Last term of the one log |
| `RaftLogs.RaftLog.FindConflict` | raft-kv/raft/raft_log.cpp:80-94 | The loop finds the first conflict |
| `RaftLogs.RaftLog.Append` | raft-kv/raft/raft_log.cpp:66-78 | Cut and concatenate on the one log; aborts exactly below the commit index or on a gap |
| `RaftLogs.RaftLog.CommitTo` | raft-kv/raft/raft_log.cpp:293-307 | Forward only, and never beyond the log |
| `RaftLogs.RaftLog.AppendConflicting` | raft-kv/raft/raft_log.cpp:37-49 | Appends from the first conflict on; aborts exactly on a committed conflict or a gap |
| `RaftLogs.RaftLog.AppendMatched` | raft-kv/raft/raft_log.cpp:35-60 | Append, then commit to min(leader commit, last new index) |
| `RaftLogs.RaftLog.MaybeAppend` | raft-kv/raft/raft_log.cpp:32-65 | Log, commit index and answers are those of the one-log model |
| `RaftLogs.RaftLog.MaybeCommit` | raft-kv/raft/raft_log.cpp:116-127 | Moves exactly to a larger index of the given term |
| `RaftLogs.RaftLog.Slice` | raft-kv/raft/raft_log.cpp:165-194 | The longest prefix of the range that fits, but at least one entry, although the limit is applied twice; fails exactly below the first index, aborts exactly beyond the last |
| `RaftLogs.RaftLog.StablePart` | raft-kv/raft/raft_log.cpp:175-184 | The stable part of the range up to the limit, and whether the limit has shortened it |
| `RaftLogs.RaftLog.UnstablePart` | raft-kv/raft/raft_log.cpp:186-191 | The unstable part of the range |
| `RaftLogs.RaftLog.NextEntries` | raft-kv/raft/raft_log.cpp:97-106 | The committed entries behind the applied index, up to the limit |
| `RaftLogs.RaftLog.HasNextEntries` | raft-kv/raft/raft_log.cpp:109-114 | Whether there are any |
| `RaftLogs.RaftLog.AppliedTo` | raft-kv/raft/raft_log.cpp:154-163 | Assigns even an index that is out of range; 0 is ignored |
| `RaftLogs.RaftLog.Restore` | raft-kv/raft/raft_log.cpp:129-135 | The log is the snapshot, committed up to it |
| `RaftLogs.RaftLog.IsUpToDate` | raft-kv/raft/raft_log.h:55-58 | Later last term, or the same with at least the same length |
| `RaftLogs.RaftLog.Entries` | raft-kv/raft/raft_log.h:73-78 | Everything from an index on, up to the limit; nothing behind the end |
| `LogStores.MemoryStorage.constructor` | raft-kv/raft/storage.h:33-37 | An empty log at base 0 behind the dummy entry |
| `LogStores.MemoryStorage.FirstIndex` | raft-kv/raft/storage.cpp:182-185 | Behind the dummy |
| `LogStores.MemoryStorage.LastIndex` | raft-kv/raft/storage.cpp:178-181 | The last of the list |
| `LogStores.MemoryStorage.Term` | raft-kv/raft/storage.cpp:43-55 | Fails exactly outside the dummy and the last entry |
| `LogStores.MemoryStorage.Entries` | raft-kv/raft/storage.cpp:16-40 | The range, cut to the limit; fails exactly below the dummy or on an empty log, aborts exactly beyond the last entry |
| `LogStores.MemoryStorage.Compact` | raft-kv/raft/storage.cpp:71-94 | A prefix is dropped and its last entry becomes the dummy; refused at or below the dummy, aborts beyond the last entry |
| `LogStores.MemoryStorage.Append` | raft-kv/raft/storage.cpp:96-134 | Cut and concatenate of what is not compacted away; aborts exactly on a gap |
| `LogStores.MemoryStorage.CreateSnapshot` | raft-kv/raft/storage.cpp:136-159 | Records index and term of the log; refused at or below the present snapshot, aborts beyond the last entry |
| `LogStores.MemoryStorage.ApplySnapshot` | raft-kv/raft/storage.cpp:161-175 | Replaces log and snapshot; refused unless newer |
| `LogStores.Unstable.constructor` | raft-kv/raft/unstable.h:7 | An empty tail |
| `LogStores.Unstable.MaybeFirstIndex` | raft-kv/raft/unstable.cpp:6-14 | Known only from a snapshot |
| `LogStores.Unstable.MaybeLastIndex` | raft-kv/raft/unstable.cpp:16-29 | From the tail, else from the snapshot |
| `LogStores.Unstable.MaybeTerm` | raft-kv/raft/unstable.cpp:31-57 | Of a tail entry or of the snapshot |
| `LogStores.Unstable.StableTo` | raft-kv/raft/unstable.cpp:60-72 | Drops the tail up to an index exactly when the entry there still has the given term |
| `LogStores.Unstable.StableSnapTo` | raft-kv/raft/unstable.cpp:74-78 | Forgets exactly that snapshot |
| `LogStores.Unstable.Restore` | raft-kv/raft/unstable.cpp:81-87 | Only the snapshot remains |
| `LogStores.Unstable.TruncateAndAppend` | raft-kv/raft/unstable.cpp:89-112 | Cut and concatenate on the tail; a batch from below replaces it; aborts exactly on a gap |
| `LogStores.Unstable.Slice` | raft-kv/raft/unstable.cpp:114-122 | A range of the tail; aborts exactly outside it |
| `EntrySize.EntryLimitSize` | raft-kv/raft/util.cpp:18-30 | The loop keeps the longest prefix that fits, but at least one entry |
| `EntrySize.LongestFittingPrefix` | raft-kv/raft/util.cpp:18-30 | What is kept fits, unless it is a single entry, and every longer prefix does not |
| `EntrySize.FitIsUnique` | raft-kv/raft/util.cpp:18-30 | That length is the only one with this property |
| `EntrySize.LimitTwice` | raft-kv/raft/raft_log.cpp:175-192 | If the limit has shortened the front part, limiting the whole gives the same |
| `MsgPack.BatchSizeIsPackedLength` | raft-kv/raft/util.cpp:18-30 | The size that limits a batch is the length of its packed entries together |
| `MsgPack.SizeIsPackedLength` | raft-kv/raft/proto.cpp:13-62 | `serialize_size` is the length of the packed entry, for every entry whose numbers fit their fields; tests/test_msgpack.cpp:68 expects it of some |
| `MsgPack.EntryRoundTrip` | raft-kv/raft/proto.h:63-75 | A packed entry is read back as it was, whatever follows it |
| `MsgPack.BigEndianRoundTrip` | raft-kv/raft/proto.cpp:27-44 | k bytes give back a number if and only if it is below 256 to the k |
| `EntrySize.Size` | raft-kv/raft/proto.cpp:59-62 | Every entry has a positive size |
| `ReadyLoop.Server.PullReadyEvents` | raft-kv/server/raft_node.cpp:88-124 | The loop terminates; every committed entry behind the starting point, or behind a waiting snapshot, reaches the state machine once and in order; every message is sent; applied equals commit; nothing is left to persist or report; the log only loses a prefix; read states are left behind exactly when they were all there was to report |
| `ReadyLoop.Server.Drain` | raft-kv/server/raft_node.cpp:88-124 | From the second round on only pages of committed entries are left, and their number goes down to nothing |
| `ReadyLoop.Server.Round` | raft-kv/server/raft_node.cpp:88-124 | One turn: applies the next page in order; gives up exactly when read states are all there is |
| `ReadyLoop.Server.Turn` | raft-kv/server/raft_node.cpp:95-123 | Persist, send, apply, advance: nothing but committed entries is left to report |
| `ReadyLoop.Server.Carry` | raft-kv/server/raft_node.cpp:95-121 | Everything is stored before anything is sent or applied |
| `ReadyLoop.Server.Store` | raft-kv/server/raft_node.cpp:97-113 | Afterwards the store alone is the whole log; the abort on a stale snapshot is unreachable |
| `ReadyLoop.Server.Deliver` | raft-kv/server/raft_node.cpp:115-121 | The page follows what has been applied; the gap abort is unreachable |
| `ReadyLoop.Server.Persist` | raft-kv/server/raft_node.cpp:97-110 | Snapshot and entries are accepted by the store, which then is the whole log |
| `ReadyLoop.Server.PublishSnapshot` | raft-kv/server/raft_node.cpp:150-179 | The state machine restarts from the snapshot; aborts exactly on one that is not ahead of what is applied |
| `ReadyLoop.Server.EntriesToApply` | raft-kv/server/raft_node.cpp:293-307 | Exactly the entries not yet applied; aborts exactly on a gap |
| `ReadyLoop.Server.PublishEntries` | raft-kv/server/raft_node.cpp:233-291 | The loop applies each entry once, in order |
| `ReadyLoop.Server.MaybeTriggerSnapshot` | raft-kv/server/raft_node.cpp:309-346 | A snapshot is taken at the applied index, and the log cut to the entries kept for slow followers, if and only if enough was applied since the last one; neither can fail, because no fewer entries lie between snapshots than are kept |
| `ReadyLoop.Server.HasReady` | raft-kv/raft/node.cpp:127-147 | A changed soft state, a changed hard state other than the empty one, a snapshot or entries to persist, a message to send, an entry to apply, or a read state |
| `ReadyLoop.Server.TakeReady` | raft-kv/raft/ready.cpp:12-34 | Hands out changes, the whole tail, a page and all messages, and empties the outbox |
| `ReadyLoop.Server.TakePage` | raft-kv/raft/raft_log.cpp:97-106 | A non-empty page of the committed entries unless there are none, in order and without a gap |
| `ReadyLoop.Server.Advance` | raft-kv/raft/node.cpp:150-176 | Cursors and previous states catch up, and the tail is empty |
| `ReadyLoop.Server.Stabilize` | raft-kv/raft/node.cpp:166-172 | The tail lets go of exactly what was persisted |
| `ReadyLoop.Server.Remember` | raft-kv/raft/node.cpp:151-156 | The reported states are the previous ones from now on; read states are cleared |
| `ReadyLoop.PersistedIsWhole` | raft-kv/server/raft_node.cpp:97-110 | With the whole tail written, the store alone is the log |
| `ReadyLoop.DeliveredIsRange` | raft-kv/server/raft_node.cpp:115-120 | Delivery means that exactly the range of the log in between has been appended to what was applied |
| `ReadyLoop.DeliveredOn` | raft-kv/server/raft_node.cpp:88-124 | Deliveries chain across pages, also when the log is compacted in between |
| `ServerRun.Run` | raft-kv/server/raft_node.cpp:379-405 | For every sequence of steps of the raft object and calls of the Ready loop: the server over two stores, with pages and compaction, stays where an ideal one is that keeps one log, never compacts it, and applies everything committed at once; it aborts exactly if that one does; after a call of the loop the state machine is the log range from its snapshot to the commit index |
| `ServerRun.RunOnward` | raft-kv/server/raft_node.cpp:88-124 | However a run goes on, what was applied is only continued, or replaced by a later snapshot |
| `ServerRun.IdealStepOk` | raft-kv/raft/raft_log.cpp:32-63 | No step takes back or changes what was applied: the applied entries stay the beginning of the log, or of one that a later snapshot has replaced |
| `ServerRun.MaybeAppendDropped` | raft-kv/raft/raft_log.cpp:32-63 | Entries from a leader at or behind the commit index have the same outcome on the compacted log |
| `ServerRun.ConflictDropped` | raft-kv/raft/raft_log.cpp:80-94 | So has the search for the conflict |
| `ServerRun.CutDropped` | raft-kv/raft/raft_log.cpp:66-78 | Cutting and appending behind the compacted part commutes with compaction |
| `ServerRun.PagesAddUp` | raft-kv/server/raft_node.cpp:115-120 | Pages delivered from a compacted log add up to the range of the whole log |
| `ServerRun.Receive` | raft-kv/raft/raft.cpp:800-820 | Entries from a leader: ignored below the commit index, otherwise as on the whole log |
| `ServerRun.Append` | raft-kv/raft/raft_log.cpp:66-78 | Own entries: as on the whole log |
| `ServerRun.Commit` | raft-kv/raft/raft.cpp:843-845 | A heartbeat: as on the whole log |
| `ServerRun.Count` | raft-kv/raft/raft_log.cpp:116-127 | A majority index of a term: as on the whole log |
| `ServerRun.Offer` | raft-kv/raft/raft.cpp:878-908 | A snapshot: ignored at or below the commit index, a mere commit if the log holds it, otherwise it replaces the log |
| `ServerRun.Move` | raft-kv/raft/raft.cpp:1265-1269 | Term, vote, role, messages and answered reads: nothing changes for log and state machine |
| `ServerRun.Pull` | raft-kv/server/raft_node.cpp:88-124 | A call of the Ready loop applies exactly what the ideal server applies |
| `ServerRun.Start` | raft-kv/raft/raft_log.h:17-29 | A server that starts from nothing, or from a snapshot in its store, is where the ideal one starts |
| `ReadyLoop.PageOfRange` | raft-kv/raft/raft_log.cpp:97-106 | A page is a non-empty gapless beginning of the range |
| `ReadIndex.ReadOnly.AddRequest` | raft-kv/raft/readonly.cpp:55-66 | In every run queue and map hold the same contexts once each, answers followed by waiting requests are what was accepted, and promised indexes never decrease; a context already waiting is ignored |
| `ReadIndex.ReadOnly.RecvAck` | raft-kv/raft/readonly.cpp:15-24 | One acknowledgement joins that request; the answer counts the leader as well, 0 for an unknown context |
| `ReadIndex.ReadOnly.Advance` | raft-kv/raft/readonly.cpp:26-52 | Releases exactly the prefix up to the context, in order; hands out all and removes none if the context does not wait; the abort is never taken |
| `ReadIndex.ReadOnly.Release` | raft-kv/raft/readonly.cpp:44-50 | Moves the first requests from queue and map to the answers |
| `ReadIndex.ReadOnly.OnHeartbeatResp` | raft-kv/raft/raft.cpp:566-576 | Releases requests exactly when the acknowledgement completes a majority of a waiting request |
| `ReadIndex.ReadOnly.Clear` | raft-kv/raft/raft.cpp:1293-1295 | Nothing waits any more |
| `ReadIndex.Erase` | raft-kv/raft/readonly.cpp:46-49 | The loop removes exactly the released contexts from the map |
| `ReadIndex.ReleaseKeeps` | raft-kv/raft/readonly.cpp:44-50 | No request is lost, repeated or reordered by a release |
| `ReadIndex.AcksAreMajority` | raft-kv/raft/raft.cpp:569-572 | The count reaches the quorum if and only if the leader and those that acknowledged are more than half of the voters |
| `WalFormat.LengthRoundTrip` | raft-kv/wal/wal.h:28-38 | The three length bytes give back the length if and only if it is at most 0xFFFFFF; a longer one is clipped |
| `WalFormat.CrcRoundTrip` | raft-kv/wal/wal.cpp:61-62 | The four checksum bytes give back the checksum |
| `WalFormat.Fields` | raft-kv/wal/wal.cpp:58-69 | Where the fields of a record stand in the file |
| `WalFormat.LowByteFirst` | raft-kv/wal/wal.h:28-38 | In length and checksum the low byte comes first |
| `WalFormat.FrameRead` | raft-kv/wal/wal.cpp:184-230 | At any header with its full data, whatever follows: a record is read if and only if its type is not 0 and its stored checksum is 0 or that of the data; at type 0 reading stops and nothing is cut, at a checksum that does not fit the file is cut there |
| `WalFormat.ShortRead` | raft-kv/wal/wal.cpp:186-210 | A header that is incomplete, or announces more than the file holds, is cut off |
| `WalFormat.FrameOrShort` | raft-kv/wal/wal.cpp:186-210 | There is no other case: any file that is not short begins with a header and its full data |
| `WalFormat.DamagedRecordEndsTheLog` | raft-kv/wal/wal.cpp:211-222 | Behind any intact records, one whose stored checksum is neither 0 nor that of its data: exactly the intact records are read, and the file is cut to them, whatever follows |
| `WalFormat.TypeZeroEndsTheLog` | raft-kv/wal/wal.cpp:200-203 | Behind any intact records, one of type 0: exactly the intact records are read, and the whole file stays |
| `WalFormat.ParseOne` | raft-kv/wal/wal.cpp:184-230 | A storable record is read back and reading goes on behind it |
| `WalFormat.RecordRoundTrip` | raft-kv/wal/wal.cpp:58-69 | A record is read back as written if and only if its type is not 0 and its data fit the length field |
| `WalFormat.ParseAppended` | raft-kv/wal/wal.cpp:172-238 | Whatever follows a list of records is read as if it stood alone |
| `WalFormat.TornRecord` | raft-kv/wal/wal.cpp:189-210 | A strict prefix of a record yields no record and is cut off |
| `WalFormat.TornTailRecovery` | raft-kv/wal/wal.cpp:172-238 | Any list of records followed by any strict prefix of one more: exactly the list is read, and the file is cut to it |
| `WalFormat.AppendThenReread` | raft-kv/wal/wal.cpp:58-69 | Appending to a recovered file and reading again yields the old records, then the new ones |
| `WalFormat.ParseAtIsParse` | raft-kv/wal/wal.cpp:181-216 | Reading by offset is reading the rest of the file |
| `WriteAheadLog.TornSave` | raft-kv/wal/wal.cpp:309-320 | A save torn behind some of its entries: they are in the log, and the hard state is still the old one |
| `WriteAheadLog.OneEntry` | raft-kv/wal/wal.cpp:257-260 | Resize and push is cut and append on the live log |
| `WriteAheadLog.BatchReplay` | raft-kv/wal/wal.cpp:251-264 | Replaying a batch entry by entry is appending the batch to the live log |
| `WriteAheadLog.ReplayIsLive` | raft-kv/server/raft_node.cpp:195-231 | For every sequence of saves without gaps, overwrites included, replay gives the entries of the live log, none null, and the hard state saved last |
| `WriteAheadLog.RecoveryRebuilds` | raft-kv/wal/wal.cpp:172-238 | End to end: a file of saves with a torn tail is cut back to them and rebuilds live log and hard state without an abort |
| `WriteAheadLog.CompactionCommutes` | raft-kv/wal/wal.cpp:256-260 | One batch, with the snapshot inside the log before and after it: compacting and appending commute if and only if the batch does not end exactly at the snapshot while the log went on behind it; one step only, whole files are `SnapshotRead.ReadingFromSnapshot` |
| `SnapshotRead.ReadingAborts` | raft-kv/wal/wal.cpp:246-296 | Handling the records aborts if and only if one of them is of an unknown type, or is a snapshot record with the starting index and another term |
| `SnapshotRead.ReadingFromSnapshot` | raft-kv/wal/wal.cpp:251-281 | Over all gapless saves, overwrites included, with snapshot records anywhere in between: reading from a later snapshot gives the live log behind it if and only if the live log goes on behind the snapshot or no saved batch ever reached behind it; the hard state is the same either way |
| `SnapshotRead.GatheredFromSnapshot` | raft-kv/wal/wal.cpp:256-260 | For every sequence of saves: while the live log goes on behind the snapshot, exactly its entries there are gathered; something is gathered if and only if some batch has ever reached there; never a null entry |
| `SnapshotRead.GatheredStep` | raft-kv/wal/wal.cpp:256-260 | One batch keeps that: it is read exactly as far as it lies behind the snapshot |
| `SnapshotRead.OverwrittenEntryComesBack` | raft-kv/wal/wal.cpp:256-260 | A run of three saves, an overwrite by a new leader and growth back to the snapshot, after which an overwritten entry of term 1 is read back behind a snapshot of term 2; a candidate with that entry is refused before the restart and up to date after it |
| `SnapshotRead.SnapshotRecordsChangeNoEntry` | raft-kv/wal/wal.cpp:273-284 | Snapshot records among the others change neither entries nor hard state |
| `SnapshotRead.SnapshotSearch` | raft-kv/wal/wal.cpp:225-236 | The search succeeds if and only if there is any snapshot record; its answer is right if and only if the starting snapshot is among the records or there is no snapshot record at all |
| `SnapshotRead.SearchNeverFails` | raft-kv/wal/wal.cpp:109-130 | Because a file begins with a snapshot record, the search succeeds for every starting snapshot, even one that was never saved |
| `WriteAheadLog.OnlyCommitReplay` | raft-kv/wal/wal.cpp:298-319 | Records that differ in the commit index at most change nothing else when read back |
| `WriteAheadLog.WalFile.Append` | raft-kv/wal/wal.cpp:58-69 | The encoded record joins the buffer |
| `WriteAheadLog.WalFile.Sync` | raft-kv/wal/wal.cpp:72-85 | The buffer moves to the file |
| `WriteAheadLog.WalFile.Truncate` | raft-kv/wal/wal.cpp:45-56 | The file is cut and the buffer dropped |
| `WriteAheadLog.Wal.Save` | raft-kv/wal/wal.cpp:298-330 | Entries, then hard state, of any kind; on disk afterwards unless the commit index is all that is new; if terms do not go back and the vote of a term does not change, what waits in memory never differs from the disk in more than the commit index |
| `WriteAheadLog.Wal.Buffer` | raft-kv/wal/wal.cpp:309-320 | The records of one save join the buffer in order |
| `WriteAheadLog.Wal.WriteEntries` | raft-kv/wal/wal.cpp:310-315 | One record per entry, in order |
| `WriteAheadLog.Wal.Flush` | raft-kv/wal/wal.cpp:332-335 | What was pending is stored |
| `WriteAheadLog.Wal.CrashLosesOnlyCommit` | raft-kv/raft/util.cpp:32-35 | After saves whose terms do not go back and whose vote in a term does not change, a crash between saves loses no entry, and of the hard state only a newer commit index |
| `WriteAheadLog.Wal.Scan` | raft-kv/wal/wal.cpp:184-230 | The loop reads exactly the records of the declarative reading and finds where to cut; what that reading makes of every possible front of a file is `WalFormat.FrameRead` and `WalFormat.ShortRead` |
| `WriteAheadLog.Wal.Next` | raft-kv/wal/wal.cpp:186-222 | The record at an offset and its size, or the reason to stop: a record of type 0, or one that is incomplete or whose stored checksum is neither 0 nor that of its data (`WalFormat.FrameRead`) |
| `WriteAheadLog.Wal.ReadAll` | raft-kv/wal/wal.cpp:172-238 | The handled records and the cut file are those of the declarative reading; a damaged record, and what follows it, is neither handled nor kept (`WalFormat.DamagedRecordEndsTheLog`) |
| `Recovery.StepIsWritten` | raft-kv/server/raft_node.cpp:90-97 | Every step of a run other than a restart can be saved as one batch and one hard state: no log becomes empty, terms and commit indexes do not go back, votes stay, indexes have no gap |
| `Recovery.Persist` | raft-kv/server/raft_node.cpp:97 | Saving a step keeps the write-ahead log in line with the node: reading everything saved gives its log, term, vote and commit index |
| `Recovery.SaveHolds` | raft-kv/wal/wal.cpp:298-330 | The records of one more save, read behind the others, give the node after the step |
| `Recovery.CreatedHolds` | raft-kv/wal/wal.cpp:109-130 | A file just created holds a node that has done nothing |
| `Recovery.CrashIsRestart` | raft-kv/server/raft_node.cpp:195-231 | After a crash at any moment between saves what is on disk is read without abort or null entry, and the node built from it is the restarted one: same term, vote and log, a commit index not above the old one |
| `Recovery.TornCrashIsRestart` | raft-kv/wal/wal.cpp:184-222 | So it is if the file ends in the torn beginning of one more record |
| `Recovery.CrashIsAnAction` | raft-kv/server/raft_node.cpp:195-231 | In a cluster state that crash is an enabled restart action, and its outcome is the node built from disk |
| `Recovery.Reopen` | raft-kv/wal/wal.cpp:133-170 | The log opened again is in line with the restarted node |
| `Glob.StringMatchLen` | raft-kv/server/redis_store.cpp:28-148 | On every non-empty string the answer is the declarative glob relation of the pattern's tokens; on the empty string it is yes exactly for the empty pattern |
| `Glob.ReadsWhatIsWritten` | raft-kv/server/redis_store.cpp:30-147 | Reading is the inverse of writing: any list of literals, wildcards and classes, written down with escapes where needed, is read back as it was |
| `Glob.TextMatchesItself` | raft-kv/server/redis_store.cpp:117-133 | A text written with every special character escaped matches that very text and no other, or those that differ in case at most |
| `Glob.ClassRule` | raft-kv/server/redis_store.cpp:56-116 | A class accepts a character if and only if one of its members is it or spans it, either way round, unless negated |
| `Glob.MatchAt` | raft-kv/server/redis_store.cpp:30-147 | The loop over both cursors decides the relation between the rests |
| `Glob.MatchStar` | raft-kv/server/redis_store.cpp:33-47 | Collapsing stars and trying only non-empty rests loses no match |
| `Glob.MatchRests` | raft-kv/server/redis_store.cpp:40-46 | Some rest matches |
| `Glob.MatchOne` | raft-kv/server/redis_store.cpp:49-133 | One token accepts one character, and where the next token begins |
| `Glob.ScanClass` | raft-kv/server/redis_store.cpp:56-116 | Bracket class with escapes, ranges either way round, case folding and a missing bracket |
| `Glob.SkipStars` | raft-kv/server/redis_store.cpp:137-143 | At the end of the string only stars may be left |
| `Glob.StarsCollapse` | raft-kv/server/redis_store.cpp:34-37 | Two stars in a row mean one |
| `Glob.NonEmptyRests` | raft-kv/server/redis_store.cpp:40-46 | Behind a star followed by something else the empty rest never matches |
| `Glob.FromStar` | raft-kv/server/redis_store.cpp:33-47 | A star matches any run |
| `Glob.EmptyStringFlaw` | raft-kv/server/redis_store.cpp:30-147 | On the empty string the answer is wrong exactly for patterns of one or more stars and nothing else |

## Left out

- Safety.ElectionSafety: like the other theorems about runs, assumes with pre-vote on that no granted pre-vote reaches a
  candidate, because it is false otherwise (`PreVoteFlaw.ElectionSafetyNeedsNoPreVote`).
- RaftLogs.PersistKeepsLog: assumes that the log and the store match, as any two logs of a run do
  (`Safety.LogMatching`); without an overwrite in between `RaftLogs.PersistPrefix` assumes nothing.
- Snapshots in the protocol between nodes: `maybe_send_append` is modelled on a log without compaction, because the
  messages of the source do not carry a snapshot (raft-kv/raft/proto.h:135). Snapshots are in the log, the Ready loop
  and the write-ahead log.
- RaftNode.Raft: holds its log as one sequence and its progress records as values. What the log over two stores and the
  progress objects do is proved of them separately, against the same functions; aliasing between them and the raft
  object is not captured.
- Safety.CrashOk: the restart of the cluster model has the whole log, as if read from the beginning
  (`Recovery.CrashIsAnAction`). A restart from a later local snapshot is not part of the cluster: when it keeps the log
  is `SnapshotRead.ReadingFromSnapshot`, and where it does not, no theorem about runs covers it.
- StepProof.RestartOk: as for Safety.CrashOk, the log of the restarted node is the very same one.
- Recovery.CrashIsRestart: a save is on disk as a whole or not at all, apart from the torn beginning of one record. What
  a crash inside a save leaves, entries without the hard state behind them, is `WriteAheadLog.TornSave`; it is not an
  action of the cluster.
- RaftNode.Raft.Push: the outbox is compared as a set, so the order of sending is not captured. No property depends on
  it, because the network reorders.
- RaftNode.Raft.MaybeSendAppend: the branch for compacted entries, which would send a snapshot, is left out as above.
- RaftNode.Raft.StepFollower: messages about transfer, read index and snapshots are left out.
- RaftNode.Raft.StepCandidate: a snapshot message is left out, and MsgTimeoutNow is ignored by the source anyway.
- RaftNode.Raft.StepLeader: messages about read index, snapshot status and transfer are left out.
- RaftNode.Raft.OnHeartbeatResp: counting acknowledgements of read requests is `ReadIndex.ReadOnly.OnHeartbeatResp`.
- RaftNode.Raft.Propose: the rewriting of a second configuration change and the refusal during a transfer are left out.
- RaftNode.Raft.Dispatch: only the modelled kinds of messages; a campaign is never held back, see below.
- RaftNode.Raft.Step: whether the lease holds is a parameter, and a transfer does not override it.
- RaftNode.Raft.Local: MsgTimeoutNow is a local event that may occur at any moment, not a message. A campaign that the
  source refuses because a configuration change waits to be applied (raft-kv/raft/raft.cpp:297-300) is an event that
  does not occur.
- Configuration of the server: it sets pre_vote and check_quorum (raft-kv/server/raft_node.cpp:44-45); here both are
  parameters of every theorem.
- Membership change and learners: the voter set is fixed. Entries of a configuration change are entries like others,
  and the rewriting of a second one to an empty entry is the choice of the client.
- Leadership transfer: the target's campaign can start at any moment; the bookkeeping of the leader is not modelled. The
  transfer context is built but never attached (raft-kv/raft/raft.cpp:955-959), so it overrides no lease.
- Quota on uncommitted data: a dropped proposal is a proposal that is not made.
- Timers and randomized timeouts: any local event may occur at any moment.
- Availability.MajorityMakesProgress: what a majority can do, not that it will. That the network delivers and timeouts
  do not collide for long enough is nothing the model assumes, so no run is claimed to get there by itself.
- Elections.MajorityElectsLeader: is about runs without pre-vote, `PreElections.PreVoteElectsLeader` about those with it.
- NodeDuties.LaterVoteRule: whether the lease runs is a parameter, as in `Cluster.Deliver`.
- Read requests in the protocol: the queue is modelled on its own. The reply to a heartbeat does not return the context
  (raft-kv/raft/raft.cpp:850), so how acknowledgements arrive is a parameter. Lease-based reads, whose answer to a peer
  is addressed to nobody (raft-kv/raft/raft.cpp:475), are not modelled.
- Snapshot messages: raft-kv/raft/raft.cpp:865 and 873 set the index on the wrong message. Not modelled, as above.
- Integer width: indexes and terms are unbounded, but `next` minus one below zero is an abort. The ring and the record
  header have the widths of the source.
- Invalid configuration: `ProgressObjects.InFlights` allows a window of size 0; the protocol assumes a positive one.
- Several segment files: one file, because `cut` never starts another (raft-kv/wal/wal.cpp:332-335).
- WriteAheadLog.Wal.ReadAll: first reads the records and then handles them; the source does both in one loop. Bytes that
  `fwrite` has taken count as on disk.
- WriteAheadLog.CompactionCommutes: is about one batch only; whole files are `SnapshotRead.ReadingFromSnapshot`.
- SnapshotRead.ReadingFromSnapshot: saves from the beginning of the file on, and snapshots that the node took itself. A
  snapshot from a leader, which would replace the live log, cannot arrive in this version of the source.
- LogStores.MemoryStorage.CreateSnapshot: assumes that the index is not below the compacted part, where the source would
  read outside its list.
- Checksums and serialization are parameters of the write-ahead log: any function of the bytes, and any faithful pack
  and unpack. `MsgPack.dfy` is how entries are packed; the msgpack library itself is not part of this model.
- ReadyLoop.Server.Store: the write-ahead log and the snapshot file, which the source writes first, are not part of this
  object; `Wal.dfy` models the former on its own.
- ReadyLoop.Server.PublishEntries: applying an entry is recording it; a configuration change has no further effect. A
  malformed one, which the source skips without moving `applied_index_` (raft-kv/server/raft_node.cpp:251-254), so that
  the next page would abort as a gap, is not modelled.
- ServerRun.Run: entries, commits and snapshots arrive with any content, but their terms and votes do not go back; what
  the raft object sends in between is any list of messages.
- ReadIndex.ReadOnly.OnHeartbeatResp: the context of the acknowledgement is a parameter, see above.
- ReadyLoop.Server.PullReadyEvents: the first round of the loop is written before the loop over the others. It is about
  one call; whole runs are `ServerRun.Run`.
- `Config::validate`, `Status`, `ByteBuffer`, key-value get and set, file naming, transport: they would only add easy
  members.
