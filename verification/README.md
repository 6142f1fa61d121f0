# Verified models of the Raft, lock service, MapReduce and bank packages

The project models four protocols of the repository in Dafny and proves what they promise over
every run. `dafny verify dfyconfig.toml` checks it.

## Raft

`RaftServer.dfy` gives the effect of each lock-held section of a peer as a function on values;
class `Raft` in `Raft.dfy` does the same by updating fields in place, loops included, and each
method is proved to have that effect; `RaftOutcomes.dfy` says for every state and message what each
section leaves behind and sends. `RaftCluster.dfy` runs n peers: timeouts, client commands,
heartbeats, and the two halves of each RPC interleave in any order; a call is handled at most once
and its reply consumed at most once, after any delay, and what is lost simply never happens.

The code does less than Figure 2 of the extended Raft paper: neither reply half compares the term
of its request with the current term, and an accepted AppendEntries always cuts the log after
PrevLogIndex. The steps are kept as written and the theorems are stated under a premise on the run,
which has three parts, each of which a run may keep or not:

- `votesInTerm`: a granted vote is counted only in the term it was cast for.
- `acksInTerm`: the same for successful acknowledgements.
- `inOrder`: the requests of one leader term reach a given follower in send order.

Peers do not crash under any premise. `RaftPremises.dfy` proves, over all eight premises, which parts
are needed: Election Safety and Log Matching hold in every run if and only if votes are counted in
term, Leader Completeness and State Machine Safety if and only if all three parts hold. The failing
runs are in `RaftReordering.dfy` (three peers) and `RaftStaleAcks.dfy` (five peers), put together
from the pieces in `RaftScenes.dfy`; the former also has a run that delivers a command under every
premise. `RaftProgress.dfy` proves that no run is a dead end: under every premise, whatever happened
before, it can be carried on until every peer delivers a given command, if and only if the cluster
does not consist of one peer. Votes are counted only when a reply arrives, so a single peer never
leads.

The proof follows the paper. `RaftElection.dfy` keeps the set of granters behind the integer
`votes`; `RaftLogs.dfy` keeps every log a prefix of logs of past leaders; `RaftBallots.dfy`,
`RaftAcks.dfy` and `RaftCompleteness.dfy` keep, for every entry a peer ever held, that it still has
it or that a leader in between lacked it; `RaftSafety.dfy` draws the conclusions. The maps
`reigns`, `ballots`, `granters` and `lastAck` record history for the proof; no step reads them.

## Lock service

`LockStore.dfy` has the table of queues, in place and as functions; `LockServer.dfy` the apply loop
of one server with its leadership checks, result channels and grants; `Clerk.dfy` the retrying
client; `LockSystem.dfy` clerks, one growing committed log and servers together. An issued request may
enter the log any number of times, at any later position. `LockOverRaft.dfy` puts lock servers on
Raft peers: their tables replay prefixes of one log, and grants exclude each other across servers.
`LockProgress.dfy` proves that every run can be carried on until any client owns any key on every
server.

## MapReduce

`MapReduce.dfy` has sorting, grouping and reducing and what the results mean independently of any
order; `MapReduceJob.dfy` the map and reduce tasks on shared files, the sequential program, and the
proof that partitions together print what the sequential program prints. `TaskRuns.dfy` has runs of
tasks that are repeated and cut short anywhere, and exactly when they leave the right files;
`Coordinator.dfy` the coordinator. `MapReduceRun.dfy` has coordinator, workers and files together,
where creating a file, appending a pair, reading a file and printing a line are steps of their own
and workers may die between any two. A task can be handed out again while its first worker is still
at it, so what Done announces is right only under a premise on the run, in three parts for each kind
of task: a task is reported only when its last run to begin writing has come to its end and none is
writing, no run of a completed task begins to write, and no run begins to write while another run of
the task writes. `MapReducePremises.dfy` proves that each part is needed for each kind of task, and
that it is not enough to forbid only that late runs are cut short. `MapReduceProgress.dfy` proves
that every orderly run can be carried on until Done announces the sequential output. The map, reduce
and hash functions are parameters. The sort promises a key-sorted permutation and no more.

## Bank

`Bank.dfy` runs calls as threads whose steps take and release locks and read and write balances
separately. It proves that no run deadlocks, that calls wait only for calls on their own accounts or
for the table of accounts, and that balances agree with the calls.
`BankBalances.dfy` adds conservation and solvency. `BankCompare.dfy` has the bound on the false
answers of DepositAndCompare and exactly when it is their number. `BankSerial.dfy` proves that every
interleaving is equivalent to atomic calls in an order that keeps calls that do not overlap in
theirs. `Accounts.dfy` has the methods as a lone caller sees them.

## Where the code and its documentation differ

- raft-lock/README.md gives 600 ms as the wait of `waitForApplied`; the code waits 20 ms. The model lets the wait end at any time.
- The doc comment at mr/coordinator.go:91-92 says `Done` tells whether the entire job has finished; with no reduce tasks it answers true at once. `Coordination.DoneIsRightIff` gives the exact condition.
- bank/bank_test.go:288-289 expects exactly (threshold - 1) / amount false answers from DepositAndCompare. Deposit and read are separate critical sections, so this is an upper bound; it is the number in every completed run if and only if it is zero or the number of calls (`BankCompare.CountIsExactIff`).
- mr/worker.go:98 speaks of initialising the intermediate files, but a worker whose task was handed out again empties files that another worker has completed. `MapReducePremises.RightWhenDoneIff` gives the condition under which Done still announces the right output.

## Model

| member | source | states |
|---|---|---|
| RaftPeer.Raft.constructor | raft/raft.go:581-602 | a new peer is a follower of term 0 whose log is the sentinel |
| RaftPeer.Raft.Start | raft/raft.go:134-157 | a leader appends the command at the returned index and sets exactly its own next and match index; others change nothing |
| RaftPeer.Raft.BecomeCandidate | raft/raft.go:234-254 | from any role: next term, own vote, and exactly one request to every other peer describing the log |
| RaftPeer.Raft.RequestVote | raft/raft.go:275-327 | has the effect and the reply of OnRequestVote: the larger term, a follower after a higher term, and the vote of the grantee, nobody or as before |
| RaftPeer.Raft.ReceiveVote | raft/raft.go:356-397 | has the effect of OnVoteReply: a candidate leads if and only if the grant makes a majority, and then sends the all-zero request once to every other peer |
| RaftPeer.Raft.SendCommitted | raft/raft.go:470-473 | the apply loop sends exactly the entries after lastApplied up to commitIndex, every read in range |
| RaftPeer.Raft.AppendEntries | raft/raft.go:413-479 | has the effect and the reply of OnAppendEntries for any request: the larger term, the spliced log on success; keeps the peer well formed for any request a leader may have sent |
| RaftPeer.Raft.Count | raft/raft.go:520-524 | the counting loop finds how many match indices reach N |
| RaftPeer.Raft.ScanForCommit | raft/raft.go:516-538 | the nested downward loop has the effect of Commit |
| RaftPeer.Raft.ReceiveAppend | raft/raft.go:488-541 | has the effect of OnAppendReply: a success sets exactly the match and next index of its peer to the end of the request and its successor, and the scan then commits the last entry of the term a majority has |
| RaftPeer.Raft.SendHeartBeats | raft/raft.go:543-570 | a leader sends every other peer exactly one request, in its term, with its commit index and the log from that peer's next index on; others send nothing |
| RaftServer.VoteGrantedIff | raft/raft.go:283-322 | a vote is granted if and only if the term is not stale, the vote of the term is free or already the candidate's, and the candidate's log is up to date |
| RaftServer.VoteReplyOutcome | raft/raft.go:358-394 | a reply of a higher term deposes, a grant counts one vote and may win, anything else changes nothing |
| RaftServer.VoteOutcome | raft/raft.go:291-322 | handling a vote request leaves log, indices and commits alone, and a granter ends in the request's term |
| RaftServer.AppendOutcome | raft/raft.go:417-461 | a request succeeds if and only if it is accepted; the log becomes the spliced, cut or old one, and a rejection commits nothing |
| RaftServer.AcceptCommits | raft/raft.go:464-473 | an accepting peer commits to the smaller of the leader's commit index and its last index, and applies exactly up to it |
| RaftOutcomes.VoteRequestSettles | raft/raft.go:283-322 | for every state and request: the term is the larger one, a higher term makes a follower, and the vote is the candidate's when granted, free when a higher term was refused, and else as before |
| RaftOutcomes.VoteReplySettles | raft/raft.go:358-394 | for every state and reply: a higher term deposes; else a candidate wins if and only if the grant makes a majority, and then every next index is the end of the log and every match index 0 |
| RaftOutcomes.AppendSettles | raft/raft.go:417-461 | for every state and request: exactly when it succeeds, and the term, role, vote and log it leaves |
| RaftOutcomes.AppendDelivers | raft/raft.go:464-473 | an accepting peer commits as far as leader and log reach and delivers exactly the entries up to there |
| RaftOutcomes.AppendReplySettles | raft/raft.go:494-538 | for every leader and reply: deposed, told exactly how far the peer has come, half the next index, or a scan alone; a scan commits the last entry of the term a majority has and delivers up to it |
| RaftOutcomes.MajorityAckCommits | raft/raft.go:509-537 | the reply with which more than half of the match indices reach an entry of the term past the commit index commits and delivers that entry |
| RaftOutcomes.HeartbeatsOffer | raft/raft.go:550-565 | every other peer is sent exactly one request, with the leader's term, commit index and log from its next index on |
| RaftServer.ZeroAppendIsHarmless | raft/raft.go:386-389 | the all-zero heartbeat sent on election changes nothing at any well-formed peer |
| RaftServer.SplicedLogIsWf | raft/raft.go:454-459 | splicing keeps the sentinel and the order of terms |
| RaftServer.RequestVoteKeepsWf | raft/raft.go:275-327 | keeps a peer well formed and never lowers its term |
| RaftServer.VoteReplyKeepsWf | raft/raft.go:356-397 | keeps a peer well formed and never lowers its term |
| RaftServer.AppendEntriesKeepsWf | raft/raft.go:413-479 | keeps a peer well formed and never lowers its term |
| RaftServer.AppendReplyKeepsWf | raft/raft.go:488-541 | keeps a peer well formed and never lowers its term |
| RaftServer.HeartbeatIsWf | raft/raft.go:552-564 | a heartbeat of a well-formed leader never makes a follower cut the sentinel or break the order of terms |
| RaftServer.CommitScanSpec | raft/raft.go:516-538 | the scan finds the largest index, not below commitIndex, of the current term that a strict majority of match indices reaches, and finds none exactly when there is none |
| RaftServer.CountIsCardinality | raft/raft.go:520-530 | the count compared with half the peers is the size of the set of peers that reach the index |
| RaftCluster.Run | raft/raft.go:234-570 | every reachable cluster is well formed, whatever the network does |
| RaftCluster.TermsNeverDecrease | raft/raft.go:236-498 | no step lowers the term of any peer, at all five places that change it |
| RaftCluster.PeersStayWellFormed | raft/raft.go:437-473 | in every run without premise: logs start with the sentinel, have non-decreasing terms and end in a term not above the current one; deliveries are 1, 2, 3, ... without gap; no request in flight cuts index 0 |
| RaftElection.VotingHolds | raft/raft.go:291-322 | in every run each peer remembers the vote it cast in its term, and each grant in flight was cast |
| RaftElection.HistoryKept | raft/raft.go:236-239 | between any two moments of any run terms do not fall and votes are not changed |
| RaftElection.SingleVotePerTerm | raft/raft.go:319-322 | in every run without premise, two grants of a peer in one term go to one candidate |
| RaftElection.GrantedIffFirst | raft/raft.go:291-322 | in any state of any run, a request in flight is granted if and only if it is not stale, its voter has voted for nobody else in that term, and the candidate's log is up to date |
| RaftElection.MajoritiesIntersect | raft/raft.go:368 | two sets of more than n/2 peers share one |
| RaftElection.ConsumeVoteKeepsTallied | raft/raft.go:366-368 | the integer votes stays the size of a set of distinct granters of the current term |
| RaftElection.WinnerIsFirst | raft/raft.go:368-370 | a term that is won had no winner before |
| RaftElection.ElectionHolds | raft/raft.go:366-370 | in every run with votes counted in term, tallies are sets of granters and each leader is the winner of its term |
| RaftElection.ElectionSafety | raft/raft.go:366-370 | over a whole run with votes counted in term, at most one peer is ever leader of a term |
| RaftLogs.AppendedIsAnchored | raft/raft.go:437-459 | accepting, cutting or ignoring any slice of a past leader's log leaves a log anchored in leaders' logs |
| RaftLogs.LogsHold | raft/raft.go:413-570 | in every run with votes counted in term, every log and every request in flight is anchored in the logs of leaders |
| RaftLogs.LogMatching | raft/raft.go:437-459 | two logs that agree on the term at an index are identical up to it, also when requests are lost, delayed or reordered |
| RaftBallots.CandidaciesStep | raft/raft.go:241-246 | every step keeps that a vote was given to a candidacy whose log was at least as up to date as the voter's, and that a leader starts with the log it ran with |
| RaftAcks.AckUpdatesIndices | raft/raft.go:503-512 | a reply half changes at most the next and match index of its peer, to the end of its request |
| RaftAcks.ReplicationStep | raft/raft.go:488-564 | every step of an in-term, in-order run keeps each match index below what that follower has held of the leader's log |
| RaftCompleteness.UpToDateLogHasEntry | raft/raft.go:297-317 | a log that is up to date with respect to one containing an entry contains it too |
| RaftCompleteness.LaterLeadersHave | raft/raft.go:297-322 | an entry a majority has held in its term is in the log of every leader of every later term |
| RaftCompleteness.RetentionStep | raft/raft.go:444-459 | every step keeps that a peer still has what it held unless a leader since then lacked it |
| RaftCompleteness.SoundHolds | raft/raft.go:234-570 | all invariants hold in every in-term, in-order run |
| RaftSafety.ScanChooses | raft/raft.go:516-531 | an index the scan commits is held by a majority |
| RaftSafety.ChosenAgree | raft/raft.go:516-531 | any two committed entries lie on one log |
| RaftSafety.CommitsHold | raft/raft.go:464-537 | in every in-term, in-order run, everything committed or delivered is a prefix ending in a chosen entry |
| RaftSafety.AppliedForever | raft/raft.go:470-535 | what a peer has sent on applyCh is never retracted |
| RaftSafety.StateMachineSafety | raft/config.go:150-159 | whatever two peers deliver at an index, at whatever moments of a run, is the same command |
| RaftSafety.OneAppliedLog | raft/config.go:150-159 | what all peers have delivered are prefixes of one log |
| RaftSafety.LeaderCompleteness | raft/raft.go:516-531 | the log up to an index that a leader's scan commits is the same in every leader of every later term, over a whole run |
| RaftSafety.AppliedIsComplete | raft/raft.go:464-537 | what any peer has applied, at whatever moment, is in the log of every leader of every later term |
| RaftBackoff.FloorLog2Bounds | raft/raft.go:503-507 | the bound used for back-off is the integer logarithm |
| RaftBackoff.SuccessCopiesLog | raft/raft.go:454-461 | an accepted round makes the follower's log the leader's, with at least its commits delivered, and the leader's match index its end |
| RaftBackoff.FirstIndexSucceeds | raft/raft.go:447 | a request from index 1 is always accepted |
| RaftBackoff.RejectionHalves | raft/raft.go:503-507 | a rejected round halves nextIndex and keeps Log Matching |
| RaftBackoff.BackoffConverges | raft/raft.go:503-512 | at most floor(log2(nextIndex)) rejections and one success make the logs equal |
| RaftReordering.CommandIsDelivered | raft/raft.go:464-537 | under every premise some run delivers a command at two peers |
| RaftReordering.StaleVoteElectsTwoLeaders | raft/raft.go:366-368 | runs in which a vote counted in a later term elects two leaders of one term, whatever holds of acknowledgements and order |
| RaftReordering.AcceptedKeepsAcknowledgedIff | raft/raft.go:455 | an accepted request keeps acknowledged entries if and only if it reaches as far as they do |
| RaftReordering.ReorderingLosesCommittedEntry | raft/raft.go:455 | runs, with votes and acknowledgements in term, in which a reordered request makes a later leader lack an applied entry |
| RaftReordering.ReorderingAppliesTwoCommands | raft/raft.go:455 | such runs in which two peers apply different commands at one index |
| RaftReordering.StaleVoteUnmatchesLogs | raft/raft.go:366-368 | such two leaders with different entries of their one term at one index |
| RaftReordering.StaleVoteAppliesTwoCommands | raft/raft.go:366-368 | runs, with acknowledgements in term and requests in order, in which the two leaders of one term both commit at one index |
| RaftReordering.StaleVoteLosesCommittedEntry | raft/raft.go:366-368 | such runs in which a later leader lacks what one of them applied |
| RaftStaleAcks.StaleAckLosesCommittedEntry | raft/raft.go:509-512 | a run, with votes in term and requests in order, in which a stale acknowledgement makes a later leader lack an applied entry |
| RaftStaleAcks.StaleAckAppliesTwoCommands | raft/raft.go:509-512 | such a run in which two peers apply different commands at one index |
| RaftPremises.ElectionSafeIff | raft/raft.go:356-370 | each term has at most one leader in every run if and only if votes are counted in term |
| RaftPremises.LogMatchingIff | raft/raft.go:437-459 | logs match in every run if and only if votes are counted in term |
| RaftPremises.LeaderCompletenessIff | raft/raft.go:516-531 | what a peer has applied is in the log of every leader of a later term, in every run, if and only if votes and acknowledgements are counted in term and requests handled in order |
| RaftPremises.StateMachineSafeIff | raft/config.go:150-159 | peers apply the same commands in every run if and only if votes and acknowledgements are counted in term and requests handled in order |
| RaftProgress.CanBeDelivered | raft/raft.go:197-570 | from every state of every run of two or more peers, under any premise, a continuation elects a leader, brings every log to the command and delivers it at one index everywhere |
| RaftProgress.AlwaysDeliverableIff | raft/raft.go:366-370 | every run can be carried on until every peer delivers a given command if and only if the cluster does not consist of one peer |
| LockTable.LockStore.constructor | raft-lock/server.go:210 | an empty table |
| LockTable.LockStore.Exists | raft-lock/lockStore.go:5-12 | true if and only if some element passes the test |
| LockTable.LockStore.Filter | raft-lock/lockStore.go:24-32 | exactly the elements to keep, in order |
| LockTable.LockStore.Put | raft-lock/lockStore.go:14-16 | appends to the key's queue and touches no other |
| LockTable.LockStore.CleanEmpty | raft-lock/lockStore.go:18-22 | removes the key if and only if its queue is empty |
| LockTable.LockStore.GetLockOwner | raft-lock/lockStore.go:41-49 | the head of the queue, or zero and false when there is none |
| LockTable.LockStore.Lock | raft-lock/lockStore.go:51-57 | joins the queue once; keeps stored queues non-empty |
| LockTable.LockStore.Unlock | raft-lock/lockStore.go:34-61 | leaves the queue; keeps stored queues non-empty |
| LockTable.QueueIsHistory | raft-lock/lockStore.go:51-61 | after any operations, a queue is the clients with a Lock after their last Unlock, in the order of their first such Lock |
| LockTable.QueueHoldsWaiters | raft-lock/lockStore.go:34-61 | a queue holds exactly the waiting clients, each once, and a stored queue is not empty |
| LockTable.PlaceNeverGrows | raft-lock/lockStore.go:34-61 | a client that does not unlock never moves back, and a head stays head |
| LockTable.UnlockLeaves | raft-lock/lockStore.go:59-61 | an Unlock takes its client out of the queue |
| LockServing.LockServer.constructor | raft-lock/server.go:199-214 | a new server has applied nothing |
| LockServing.LockServer.GiveLockToOwner | raft-lock/server.go:130-141 | calls the clerk if and only if the server leads and has its endpoint |
| LockServing.LockServer.ApplyToStateMachine | raft-lock/server.go:152-172 | has the effect of ToStateMachine on table, events and grants |
| LockServing.LockServer.ApplyOp | raft-lock/server.go:104-121 | one turn of the apply loop has the effect of OnDelivery and leaves the operation in the channel of its index |
| LockServing.LockServer.MakeChannel | raft-lock/server.go:76-80 | a channel is made only where there is none |
| LockServing.LockServer.SendResult | raft-lock/server.go:115-120 | the channel of a new index is empty when it is sent to, so the send cannot block |
| LockServing.LockServer.WakeUp | raft-lock/server.go:83-94 | when the select returns, the answer is true if and only if the wait has not ended and the operation applied at the index has the client and request id of the issued one |
| LockServing.ServeReplays | raft-lock/server.go:98-123 | under any pattern of leadership the table is the replay of exactly the requests that take effect |
| LockServing.EventsAreEffects | raft-lock/server.go:164-165 | a server that leads throughout reports each effective request once, in order |
| LockServing.FreshIff | raft-lock/server.go:109-113 | a request takes effect if and only if its id is above every id its client has had in the log |
| LockServing.EventsAreLed | raft-lock/server.go:164-165 | under any pattern of leadership the events are the requests that took effect while the server led, once and in order |
| LockServing.GrantsExactly | raft-lock/server.go:130-169 | a server tells a client that it holds a key if and only if a request that takes effect, Lock or Unlock, makes the client the owner while the server leads and still leads and knows its clerk; and tells it once |
| LockServing.GrantExclusion | raft-lock/server.go:130-172 | between two grants of a key on one server, the first grantee's Unlock of it takes effect |
| LockServing.GrantsGoToHeadIff | raft-lock/server.go:130-141 | grants go to queue heads in every history if and only if no clerk is registered under id 0 |
| LockServing.NobodyIsGranted | raft-lock/server.go:166-168 | a clerk under id 0 is told it holds a lock that was released |
| LockServing.OwnerWasTold | raft-lock/server.go:164-170 | under unbroken leadership the owner of a key is the client last told so |
| LockClerk.Clerk.constructor | raft-lock/clerk.go:25-33 | a new clerk has sent nothing |
| LockClerk.Clerk.SendMutex | raft-lock/clerk.go:48-70 | one new request id per call; the same request to servers in rotation, up to and including the first success, which becomes the leader hint |
| LockClerk.OneRoundSuffices | raft-lock/clerk.go:60-69 | if one server answers whenever it is asked, the clerk is done within as many attempts as there are servers, and its hint is a server that answered |
| LockClerk.AskedOneWay | raft-lock/clerk.go:60-69 | the answers determine which servers are asked and whether the call returns |
| LockClerk.RotationReachesAll | raft-lock/clerk.go:60-61 | as many attempts as there are servers reach every server |
| LockSystem.SoundHolds | raft-lock/clerk.go:48-70 | in every run request ids are unique and an entry of the log is preceded by all earlier requests of its client |
| LockSystem.EffectiveIds | raft-lock/server.go:109-113 | in a log where no request overtakes an earlier one of its client, exactly 1, 2, ..., m take effect, in order |
| LockSystem.GapFreeIff | raft-lock/server.go:109-113 | requests take effect without gap if and only if no request overtakes an earlier one of its client |
| LockSystem.LoggedTakesEffect | raft-lock/server.go:109-113 | every request in the applied log has taken effect |
| LockSystem.ExactlyOnce | raft-lock/server.go:67-123 | on every server at every moment of every run, the effective requests of a client are its requests 1, 2, ..., m as issued, and every request the server acknowledged is among them |
| LockSystem.AcknowledgedLockIsQueued | raft-lock/server.go:67-123 | on a server that acknowledged a Lock the client is in the queue unless its own later Unlock took effect |
| LockServing.GrantsOfTwoServers | raft-lock/server.go:130-172 | grants by two servers that apply the same requests name one client when one request caused both, and otherwise the first grantee's Unlock takes effect in between |
| LockOverRaft.DeliveredGapFree | raft-lock/server.go:104-120 | a server receives indices 1, 2, 3, ... without gap under any premise |
| LockOverRaft.TablesReplayOneLog | raft-lock/server.go:98-123 | servers fed by the peers of an in-term, in-order run, each as far as it has come, have tables that replay prefixes of one log |
| LockOverRaft.SameProgressSameTable | raft-lock/server.go:98-123 | two such servers that have applied equally many requests have the same table |
| LockOverRaft.GrantsExclude | raft-lock/server.go:130-172 | over any such run, between grants of a key by any two servers the first grantee's Unlock takes effect, or one request caused both and they name one client |
| LockProgress.CallReturns | raft-lock/clerk.go:59-69 | an outstanding request can be logged, applied on every server and acknowledged from every state of every run |
| LockProgress.EveryKeyCanBeHad | raft-lock/server.go:98-123 | every run can be carried on until a given client owns a given key on every server |
| MapReduce.SortByKey | mr/worker.go:150 | a key-sorted permutation |
| MapReduce.LessIff | mr/worker.go:18-23 | keys are ordered by the first character in which they differ, a prefix coming first |
| MapReduce.Insert | mr/worker.go:17-23 | keeps key order and adds one pair |
| MapReduce.FindRunEnd | mr/worker.go:159-162 | the inner loop finds the end of the run of equal keys |
| MapReduce.CollectValues | mr/worker.go:163-166 | the values of a run, in order |
| MapReduce.GroupReduce | mr/worker.go:157-172 | the grouping loops print one line per run of equal keys |
| MapReduce.GroupedMeaning | mr/worker.go:157-172 | on sorted pairs, grouping gives for each key emitted exactly one result, from all its values |
| MapReduce.MeaningPermutes | mr/worker.go:150 | for a reduce function of the multiset of values, the results do not depend on the order of the pairs |
| MapReduce.OutputPrintsMeaning | mr/worker.go:150-172 | whatever order the sort gives equal keys, the lines are those of the results |
| MapReduceJob.FileSystem.DoMap | mr/worker.go:83-129 | partition file r of a map task holds, in the order they were emitted, exactly the pairs whose hashed key leaves remainder r, whatever it held before; files of other tasks are untouched |
| MapReduceJob.PartHoldsItsPairs | mr/worker.go:108-124 | a partition is the subsequence of the emitted pairs whose hashed key leaves its remainder |
| MapReduceJob.FileSystem.DoReduce | mr/worker.go:131-175 | writes the output of the gathered pairs, or nothing when a file is missing |
| MapReduceJob.SortAndReduce | mr-main/mrsequential.go:61-86 | sorting and grouping give an output of the pairs |
| MapReduceJob.Sequential | mr-main/mrsequential.go:40-86 | an output of all pairs of all inputs |
| TaskRuns.FilesOfTask | mr/worker.go:98-124 | after any order, repetition and failure of runs, the files of a settled map task are right |
| TaskRuns.FilesRightIff | mr/worker.go:98-124 | the files of a map task are right for any leftovers and cuts if and only if its last run came to its end, or it emits nothing and some run did |
| TaskRuns.OutputRightIff | mr/worker.go:152-173 | the output of a reduce task is right for any leftover and cuts if and only if its last run came to its end, or there is nothing to print and some run did |
| MapReduceJob.GatherIsPart | mr/worker.go:133-149 | what a reduce task reads is exactly the partition of all pairs |
| MapReduceJob.PartMeaning | mr/worker.go:110 | partitions divide the results of the job by key |
| TaskRuns.DistributedIsSequential | mr/worker.go:83-175 | once every map task is settled, the lines over all output files are, with multiplicity, the lines of the sequential program |
| MapReduceJob.PartsAreSequential | mr/worker.go:109-172 | outputs of all partitions together are, with multiplicity, an output of all pairs |
| MapReduceJob.OneOutputIff | mr/worker.go:150-169 | the lines are independent of how the sort orders equal keys if and only if the reduce function depends only on the multiset of values |
| Coordination.Coordinator.constructor | mr/coordinator.go:108-131 | all tasks unstarted and counted |
| Coordination.Coordinator.FindUnstarted | mr/coordinator.go:36-46 | the scan finds the first unstarted task |
| Coordination.Coordinator.GetTask | mr/coordinator.go:32-64 | has the effect and the reply of OnGetTask: the least unstarted task of the phase whenever there is one, with its file or counts, and one new timer |
| Coordination.Coordinator.DetectStraggler | mr/coordinator.go:66-75 | has the effect of OnStraggler: its task becomes unstarted if in progress, and no other status changes |
| Coordination.Coordinator.MarkComplete | mr/coordinator.go:77-89 | has the effect of OnMarkComplete: nothing unless the task is in progress, which then alone becomes completed |
| Coordination.Coordinator.Done | mr/coordinator.go:93-103 | true if and only if no reduce task is left |
| Coordination.SoundHolds | mr/coordinator.go:32-125 | in every run the counters count uncompleted tasks, reduces wait for maps, and a task in progress has exactly one timer, an unstarted one none |
| Coordination.RepliesAreTimely | mr/coordinator.go:35-62 | tasks are handed out unstarted, reduces only after every map is completed, and the end is announced if and only if every task is completed |
| Coordination.DoneMeansCompleted | mr/coordinator.go:93-103 | with a reduce task or nothing to map, Done answers true if and only if every task is completed |
| Coordination.DoneIsRightIff | mr/coordinator.go:93-103 | Done is right in every run if and only if there is a reduce task or nothing to map |
| Coordination.CompletedForever | mr/coordinator.go:66-89 | a completed task stays completed over any run |
| Coordination.NeverStuck | mr/coordinator.go:35-75 | while work is left, a worker that asks gets a task or a pending timer will free one |
| Coordination.AnswersExactly | mr/coordinator.go:32-62 | in every reachable state a worker is told to wait if and only if the phase has uncompleted tasks and none unstarted, to stop if and only if all are completed, and else is given the least unstarted task of the phase, which alone becomes in progress with one new timer |
| Coordination.ReportCountsIff | mr/coordinator.go:77-89 | a report changes the state if and only if the task is in progress, and then exactly its status and the count of its kind |
| Coordination.FireFreesIff | mr/coordinator.go:64-75 | a timer frees exactly its task, if and only if that is in progress, and counts nothing |
| MapReduceRun.WritesAreCuts | mr/worker.go:98-124 | a map run that is left alone goes, operation by operation, through exactly the points at which it can be cut short, and ends with the files of DoMap |
| MapReduceRun.ReadIsRight | mr/worker.go:131-149 | in an orderly run, each file a reduce task reads is there and adds exactly the pairs of its partition that the map task emitted |
| MapReduceRun.WrittenStep | mr/worker.go:98-172 | every step of an orderly run keeps the files of mapped and reduced tasks right and every unfinished file at the point its one writer has reached |
| MapReduceRun.InvariantHolds | mr/coordinator.go:32-103 | in every orderly run of coordinator and workers, completed tasks have right files that nobody is writing, and a reduce task is out only when every map is completed |
| MapReduceRun.DoneMeansSequential | mr/coordinator.go:93-103 | whenever Done answers true in an orderly run, the output files together hold the lines of the sequential program, with multiplicity |
| MapReducePremises.MapDisorderGivesWrongOutput | mr/worker.go:98-124 | under any weaker premise on map runs, a run in which a second worker empties or doubles a file and Done answers true on a wrong output |
| MapReducePremises.ReduceDisorderLosesOutput | mr/worker.go:153-173 | the same for reduce runs: a second worker has emptied the output when Done answers true |
| MapReducePremises.RightWhenDoneIff | mr/coordinator.go:77-103 | what Done announces is the sequential output in every run if and only if, for map and for reduce tasks, reports are fresh, no run of a completed task begins to write, and one run of a task writes at a time |
| MapReduceProgress.JobCanFinish | mr/coordinator.go:32-103 | every orderly run, whatever has died or been taken back, can be carried on until Done answers true with the sequential output |
| Bank.Next | bank/bank.go:66-162 | a step moves only its own thread, forward and within its code |
| Bank.LockedHolds | bank/bank.go:66-162 | in every run each lock is held by exactly the thread whose program counter says so |
| Bank.NoDeadlock | bank/bank.go:66-162 | in every state of every run an unfinished call can step, or another call that has begun can |
| Bank.WaitsOnlyForConflicts | bank/bank.go:66-162 | in every state of every run a call that cannot move waits for a call on one of its own accounts or for one that is just taking or releasing locks under the bank lock |
| Bank.RunsEnd | bank/bank.go:66-162 | no run is longer than the code of its calls |
| Bank.LedgerHolds | bank/bank.go:66-144 | in every state each balance is the initial one plus what the threads have written |
| Bank.LedgerAgrees | bank/bank.go:66-144 | when every call has returned, each balance is the net of the calls and their answers |
| BankBalances.TransfersConserve | bank/bank.go:118-144 | with transfers only, the total is the initial one whenever none is between its two writes |
| BankBalances.TotalAgrees | bank/bank.go:66-144 | when every call has returned, the total has changed by deposits and successful withdrawals only |
| BankBalances.NeverNegative | bank/bank.go:97-142 | with non-negative amounts and no overdraw, no balance is negative in any state of any run |
| BankCompare.FewSayNo | bank/bank.go:146-154 | of equal DepositAndCompare calls on an empty account, at most (threshold - 1) / amount answer false |
| BankCompare.CanFinish | bank/bank.go:66-162 | every run can be carried on until every call has returned |
| BankCompare.AllSayNo | bank/bank.go:146-154 | calls that together cannot reach the threshold all answer false |
| BankCompare.NoneSaysNo | bank/bank.go:146-154 | calls that together reach the threshold have a completed run in which none answers false |
| BankCompare.CountIsExactIff | bank/bank_test.go:288-289 | every completed run has exactly (threshold - 1) / amount false answers if and only if that is zero or the number of calls |
| BankSerial.SerialHolds | bank/bank.go:66-162 | in every state the settled calls, made one at a time, give their answers and the balances they leave |
| BankSerial.Serialisable | bank/bank.go:66-162 | every completed interleaving has the answers and balances of its calls made one at a time in some order, a DepositAndCompare being a deposit and a later comparison that gives its answer |
| BankSerial.HistoryInOrder | bank/bank.go:66-162 | that order keeps everything of a call that returned before another began before everything of the other |
| BankAlone.Bank.constructor | bank/bank.go:29-32 | no accounts |
| BankAlone.Bank.CreateAccount | bank/bank.go:54-63 | adds an empty account, or refuses if it exists |
| BankAlone.Bank.Deposit | bank/bank.go:66-83 | changes every balance by what the call means for it |
| BankAlone.Bank.Withdraw | bank/bank.go:86-115 | succeeds if and only if the balance suffices; changes balances accordingly |
| BankAlone.Bank.Transfer | bank/bank.go:118-144 | succeeds if and only if the sender can pay or may overdraw; moves the amount |
| BankAlone.Bank.DepositAndCompare | bank/bank.go:146-154 | compares the balance after the deposit |
| BankAlone.Bank.GetBalance | bank/bank.go:157-162 | the balance |

## Left out

- Crash and restart of Raft peers (`persist`, `readPersist`): state is saved only from the ticker, so votes and logs do not survive restarts in the code.
- Timers, the ticker, `heartBeatChan` and `receivedVoteChan`, `Kill`: timeouts may fire at any time in the model; `RaftProgress.AlwaysDeliverableIff` says that a command can be delivered, not that it will be.
- Sharing of `args.Entries` with the live log: a request holds the entries as they were when it was sent.
- `labrpc`, `labgob` and the test set-ups: only loss, delay and reordering of calls are modelled.
- Acknowledgement at the index returned by Start: `LockSystem` lets a server acknowledge at any index it has applied, which covers that index.
- `CommandValid`: always true in the repository, so the apply loop has no invalid message.
- File, JSON and socket access in `mr`: a file reads back as the records written.
- `ihash`: any hash function is allowed, so FNV-1a itself is not written out.
- Reading one intermediate file is one step, and positions of two runs that print to one output at the same time are counted in lines, not bytes.
- In-place sorting by Swap: `MapReduce.SortByKey` works on a sequence; only its being a key-sorted permutation is used.
- Interleaved bank calls are modelled on values, as steps of threads; the class `BankAlone.Bank` covers calls that run alone.
- CreateAccount running beside other calls: the accounts exist before the threads start.
- BankAlone.Bank.Deposit: requires the account to exist, and BankAlone.Bank.Transfer two different accounts; the source panics or blocks otherwise.
- Integer overflow in balances, request ids and terms.
- `ws` and `mr-main/mrapps`: they would add only easy members.
