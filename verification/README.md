# A verified model of navi-kv

navi-kv is a key-value store replicated with Raft: every node keeps a log in memory and in a file,
a leader copies its log to the others, members can be added while the cluster runs, and each node
feeds committed commands to a map. This project models that core in Dafny and proves what it keeps.

- `Types`, `LittleEndian`, `Storage`: values, byte words, the growable byte file.
- `Membership`: the config-change command, the merge a node applies for it, and the fold over the log.
- `OrderStatistic`, `Raft`: one node as a value, and each step under the node's mutex as a function.
- `LogFile`: the file image, what `persist` writes of it and what `restore` reads.
- `Server`: the node as the original has it, an object with a slice over a backing array and a file.
  Each method is proved to take exactly the step of `Raft` it stands for, and to keep file and memory in agreement.
- `NodeEffects`: what every event does to a node, told by its fields, the message and the answer, without the
  functions that compute it.
- `NodeInvariants`, `NodeMembership`, `NodeRun`: what a single node keeps, membership changes and restarts included.
- `Cluster`: nodes exchanging requests and responses that may be late, doubled, reordered or lost, while
  members are added, founding clusters differ, and nodes stop and start again.
- `ClusterLog`, `ClusterLogRun`: the invariant of all such runs; `ClusterMembership`: what it means for membership.
- `ClusterFixed`, `ClusterVotes`, `ClusterCommit`, `ClusterCommitRun`: what holds in addition for one fixed set of
  nodes, which may stop and start again. `ClusterSafety`: the theorems over whole runs; `ClusterNoPanic`: where the
  Raft core does not panic, and where it does.
- `CatchUp`: leader and follower until their logs are equal. `KvCommand`, `KvReplication`: the commands and the map.
- `Traces`, `Counterexamples`, `CutBatchRun`: concrete runs that lose Election Safety or a committed entry, or end in a panic.

## Hypotheses

The steps are modelled as the code has them. Where the code leaves out a guard of the Raft paper, the guard is
not added; it is a named hypothesis about runs, and each theorem uses only those it needs.

- `Cluster.Atomic`: the dispatch loop's look at the state and the call it selects are one step. The loop releases
  the mutex in between (`navi/server.go:146-164`) and `becomeLeader` does not look again (`navi/election.go:160-171`).
  `Counterexamples.SplitDecisionElectsTwice` is what happens otherwise.
- `Cluster.Fresh`: requests are built in the role they were started for, and a response is handled only in the
  term of its request. The code compares the response with the request, not with the current term
  (`navi/election.go:95`, `navi/replication.go:135`). `Counterexamples.StaleVoteElectsTwice` and
  `Counterexamples.StaleVoteLosesCommitted` are what happens otherwise.
- `Cluster.Routed`: the node that answers at a member's address has the member's id. The code dials the address
  and never compares ids (`navi/election.go:69`, `navi/replication.go:94`); of a member added under the address of
  another node it would count that node's answers.
- `Cluster.Unclaimed`: no term is won twice. With `Atomic`, `Fresh` and `Routed` it is all the log theorems assume:
  members may be added, nodes that founded clusters of their own may join, and nodes may restart
  (`ClusterSafety.SingleLeaderRun`).
- `Cluster.VoteKept`: a node that restarts has no vote, or its log already ends in its term, as a leader's always
  does. It can be read off the node before it stops. A restart loses the vote (`NodeInvariants.RestartedVotesIff`),
  and `Counterexamples.ForgottenVoteElectsTwice` is what happens otherwise. Elections assume it, and so do the
  theorems about commitment; the commit invariant itself is kept by every restart (`ClusterCommitRun.CommitInvStep`).
- `Cluster.Fixed` and `Cluster.OneCluster`: one set of nodes, all founding members, nobody added, and no client
  command that poses as a config change. `Counterexamples.AdditionElectsTwice` is what happens when a node that
  founded a cluster of its own is added: the first request wakes it, even one that it refuses, and it elects itself.
- `Cluster.AmpleBatch`: wherever the limit of 8000 entries cuts a request, it still reaches an entry of the sender's
  term and the sender's commit index. A request that is not cut always does (`ClusterSafety.UncutIsAmple`). A
  cut one may make its receiver forget a vote of the term (`NodeInvariants.SecondVoteIff` says when), and
  `CutBatchRun.CutBatchElectsTwice` is what happens then.

A run that meets all of these but `Unclaimed` is safe (`ClusterSafety.SafeRun`), and then `Unclaimed` is a theorem
(`ClusterSafety.SafeIsSingleLeader`). The paper's rule that a leader commits only entries of its own term is absent
from the code (`navi/replication.go:258-281`). It is not a hypothesis here: with ample batches the code obeys it
anyway (`ClusterSafety.OwnTermCommitInRun`).

A node starts again in a new process, or by `Stop` and `Start` on the object it was; the model has both. After
either it may, in the model, still be handed answers to requests of its earlier life; the theorems hold all the same.

## Where the code and what is said of it differ

- The repository's README says that committed entries are never overwritten. That holds in runs that meet the
  hypotheses above (`ClusterSafety.CommittedForever`), and not in all: in `Counterexamples.StaleVoteLosesCommitted`
  a command that a majority holds, and that its leader has committed, is gone ten steps later.
- The append handler reads the node's vote and passes it to the rebuild (`navi/replication.go:191`,
  `navi/replication.go:219`) as if to keep it. But the founding members already include the node, so the merge
  skips it and a truncation loses the vote (`NodeInvariants.RebuildForgetsVote`; when that leads to a second vote,
  exactly: `NodeInvariants.SecondVoteIff`). A restart loses it the same way (`LogFile.RestoreRecovers`).
- A test promises that a passive node does not elect itself while it waits to be added (`navi/membership_test.go:288`).
  The flag goes down with the first request of a leader, before the node holds the entry that adds it
  (`navi/replication.go:178`); from then on it can (`Counterexamples.AdditionElectsTwice`).
- `Start` on a stopped object keeps the index of a config change in flight, although the node is a follower then
  (`NodeInvariants.IdleStep`).
- The paper has a follower's commit index never fall. Here it can: with a truncation the handler sets it to the end
  of the shorter log (`navi/replication.go:244-246`, `NodeEffects.CommitIndexCanFall`). It follows the leader's and
  does not fall if and only if no committed entry is cut (`NodeEffects.AppendCommits`), which is so in every safe run
  (`ClusterSafety.CommitIndexGrows`).
- A file that holds a header but no record cannot be restored; the read runs into the end of the file
  (`LogFile.ReadBack`).

## Model

| member | source | states |
|---|---|---|
| ClusterSafety.StateMachineSafety | navi/replication.go:254-314 | In every safe run (Atomic, Fresh, Routed, Fixed, VoteKept, AmpleBatch, one cluster), restarts included, two nodes that apply an entry at the same index, at any two times, apply the same entry |
| ClusterSafety.CommittedForever | navi/replication.go:189-246 | In such a run what a node has committed at one time is in its log at every later time, and committed still, over restarts, which forget the commit index |
| ClusterSafety.CommitIndexGrows | navi/replication.go:189-246 | As long as a node's process lives its commit index never goes down, and no entry at or below it is cut off or replaced |
| ClusterSafety.CommittedLogsAgree | navi/replication.go:244-281 | What any two nodes have committed, at any two times, is the same as far as both reach |
| ClusterSafety.OwnTermCommitInRun | navi/replication.go:258-281 | Although the commit search ignores terms, in such a run it moves the commit index only to an entry of the leader's own term |
| ClusterSafety.AppliedRun | navi/replication.go:283-313 | In every state a node's process has handed its state machine the non-empty, non-config commands below `lastApplied`, in order, each once |
| ClusterSafety.AppliedCommandsAgree | navi/replication.go:283-313 | Of two nodes at any two times, the one that has applied no more has seen a prefix of the commands the other has seen |
| ClusterSafety.ElectionSafety | navi/election.go:123-198 | At most one node is leader in a term over a whole safe run, although truncation and restart make a node forget its vote |
| ClusterSafety.SafeIsSingleLeader | navi/election.go:160-198 | In a safe run no term is won twice, so that the log theorems apply to it |
| ClusterSafety.UncutIsAmple | navi/replication.go:97-118 | A leader's request that the limit of 8000 entries does not cut reaches an entry of its own term and its commit index |
| ClusterVotes.WinnerIsFirst | navi/election.go:160-171 | A candidate that counts a majority in its own cluster does so in a term nobody has won before |
| ClusterVotes.VoteInvStep | navi/election.go:123-158 | Every step keeps the vote invariant, by which a vote is forgotten only once the log ends in the term's own entry; a restart does so if it forgets no vote that counts |
| ClusterVotes.RestartVotes | navi/persistence.go:113-171 | A restart of a node without a vote, or with a log that ends in its term, keeps the vote invariant |
| ClusterSafety.LogMatchingInRun | navi/replication.go:180-242 | Two logs with an entry of one term at one index are identical up to it, in every reachable state with one leader per term, while members are added and nodes join and restart |
| ClusterSafety.RequestMatchingInRun | navi/replication.go:180-242 | The same for an in-flight request and a log, previous entry included, however late the request is |
| ClusterSafety.RequestsMatchInRun | navi/replication.go:91-118 | The same for two in-flight requests |
| ClusterSafety.MatchIndexSound | navi/replication.go:129-148 | A `matchIndex` of m, recorded for a member, means, if every address leads to the node of the member's id (`Routed`), that this node is past the leader's term or holds the leader's log through m; and `nextIndex` is always in range for the next request; additions and restarts included |
| ClusterLogRun.LogInvStep | navi/replication.go:153-252 | Every step, additions and restarts included, keeps the log invariant: elected leaders' logs, all requests, acknowledgements and leader bookkeeping fit together |
| ClusterCommit.LeaderCompleteness | navi/election.go:144-152 | Every leader elected after an entry was committed has that entry |
| ClusterCommitRun.UpToDateHas | navi/election.go:144-149 | A candidate whose log passes the vote comparison has every entry its voter has, or a leader in between lost it |
| ClusterCommitRun.CommitInvStep | navi/replication.go:254-314 | Every step, any restart included, keeps the commit invariant, from which the safety theorems follow |
| CatchUp.Trajectory | navi/replication.go:88-148 | With an unchanging leader, the state after every number of exchanges in closed form: at most `nextIndex - 1` rejections, all first, then one batch forward each round, the follower holding the leader's log through `matchIndex` |
| CatchUp.CaughtUp | navi/replication.go:88-148 | After `nextIndex` plus one round per 8000 entries the leader's log is a prefix of the follower's, the follower has committed at least as much as the leader, and `matchIndex` is the last index |
| CatchUp.CaughtUpApplies | navi/replication.go:283-313 | If it then takes enough commit steps, its state machine has seen every command the leader had committed, in order |
| CatchUp.Round | navi/replication.go:129-148 | One exchange steps back by one and changes no log, or moves on by one batch; which of the two depends only on the entries before `nextIndex`. With a batch the follower's commit index comes up to the leader's as far as its log goes |
| CatchUp.Rejections | navi/replication.go:180-187 | How often the follower refuses: the first index, counted back from `nextIndex`, at which the logs agree, at most `nextIndex - 1` steps away |
| CatchUp.PairingInRun | navi/replication.go:88-148 | In every reachable state with one leader per term a leader and a listed node of no later term meet the premises of the catch-up |
| Raft.SpliceHolds | navi/replication.go:189-242 | A splice leaves the log before the sent entries, has all of them by term, changes nothing if and only if all were there, and otherwise ends with them; it conflicts if and only if some index holds another term |
| Raft.MatchingIsExact | navi/replication.go:212-230 | The count of entries already there is exact: each one counted agrees by term, the first one not counted conflicts |
| ServerNode.Server.AppendRound | navi/replication.go:189-242 | One round of the append loop on the backing array: reallocation loses nothing, a conflict cuts and rebuilds, every index is in range |
| ServerNode.Server.AppendLoop | navi/replication.go:189-242 | The loop has after every round spliced in the entries seen so far and merged their config changes, and has counted the new ones |
| ServerNode.Server.AppendAll | navi/replication.go:176-242 | The whole loop is the one splice, and the number of new entries is the length of the freshly written tail |
| ServerNode.Server.HandleAppendEntriesRequest | navi/replication.go:153-252 | The handler, in place, takes exactly the model's step and leaves file and memory in agreement, in the vote as well if it accepts |
| ServerNode.Server.HandleAppendEntriesResponse | navi/replication.go:124-148 | The response half of `appendEntries`, in place, takes exactly the model's step |
| ServerNode.Server.NextAppendRequest | navi/replication.go:91-118 | The request half builds exactly the model's request from the array |
| ServerNode.Server.ClientApply | navi/replication.go:20-36 | Commands are appended one by one and filed, vote included; the node then is the model's, and nothing happens unless it leads |
| ServerNode.Server.Append | navi/replication.go:14-18 | Appending to the slice, in place or into a larger array, extends the log by the entry and changes no other |
| ServerNode.Server.SearchCommitIndex | navi/replication.go:258-281 | The nested countdown ends at the maximum of the old commit index and the order statistic of what the members hold, without underflow |
| ServerNode.Server.HeldByMajority | navi/replication.go:262-275 | The inner countdown of a quorum says whether at least a majority holds the index |
| NodeInvariants.CommitsLargestHeld | navi/replication.go:258-281 | An index above the old commit index is held by a majority, the leader included, if and only if it is at most the new one |
| OrderStatistic.KthLargestIsThreshold | navi/replication.go:258-281 | At least k elements reach v if and only if v is at most the k-th largest |
| ServerNode.Server.AdvanceCommitIndex | navi/replication.go:254-314 | Search and application, in place, take exactly the model's step |
| NodeInvariants.NewCommitInRange | navi/replication.go:258-284 | The new commit index is an index of the log, so the entry to apply always exists |
| ServerNode.Server.Timeout | navi/election.go:13-38 | In place: a node that is not passive and has timed out becomes candidate of the next term with its own vote only, and files it |
| ServerNode.Server.UpdateTerm | navi/election.go:108-121 | In place: a higher term, and only that, makes the node a follower without vote or pending change, and files it |
| ServerNode.Server.HandleRequestVoteRequest | navi/election.go:123-158 | In place: the vote handler takes exactly the model's step, and a granted vote is filed |
| ServerNode.Server.HandleRequestVoteResponse | navi/election.go:87-103 | In place: the response half of `requestVote` takes exactly the model's step |
| ServerNode.Server.HasMajority | navi/election.go:164-169 | The quorum countdown reaches 0 if and only if the set of members whose recorded vote is for this node is a majority |
| ServerNode.Server.BecomeLeader | navi/election.go:160-198 | In place: with a majority the bookkeeping is reset, an empty entry of the term is appended and filed; otherwise nothing changes |
| ClusterNoPanic.DeliveryNeverPanics | navi/replication.go:153-252 | If client commands fit a record, then in every state of a safe run any message in flight can be handled: no index is out of range, no config change fails to decode, and every command it brings fits the file |
| ClusterMembership.DigestibleInRun | navi/persistence.go:72-74 | If client commands fit a record and are no config changes, no log and no request ever holds a command that does not fit or a config change that does not decode, additions included |
| ClusterNoPanic.GrowingDelivery | navi/election.go:87-103 | While members are added and nodes restart, in runs with one leader per term a message that arrives in the term of its request can be handled, if and only if it is not a vote from a member that a truncation has removed from the candidate's list |
| ClusterNoPanic.CommitNeverPanics | navi/replication.go:254-314 | In every state of a safe run every node can take the commit step: the entry it would apply is in its log |
| Counterexamples.SplitDecisionElectsTwice | navi/server.go:146-164 | A run of thirteen steps in which one `becomeLeader` comes after the node has become a follower of a later term, and which ends with two leaders in one term |
| Counterexamples.StaleVoteLosesCommitted | navi/election.go:87-103 | A run of twenty-seven steps with one stale vote: a client's command, held by a majority and committed by its leader, is replaced in the leader's log |
| Counterexamples.ForgottenVoteElectsTwice | navi/persistence.go:113-171 | A run of eleven steps in which one node restarts and votes again in its term, and which ends with two leaders in one term |
| Counterexamples.AdditionElectsTwice | navi/replication.go:177-187 | A run of fifteen steps in which one member is added, refuses the first request and elects itself, and which ends with two leaders in one term |
| CutBatchRun.CutBatchElectsTwice | navi/replication.go:102-105 | A run in which one request of a leader is cut to 8000 entries of an earlier term, after 8001 refusals, and which ends with two leaders in one term |
| Counterexamples.CutOffVotePanics | navi/election.go:99-101 | A run of twenty-three steps that meets all hypotheses of the log theorems and ends with a vote under way whose slot the candidate's list no longer has |
| Counterexamples.StaleVoteElectsTwice | navi/election.go:87-103 | A run of twelve steps that breaks freshness once, with a vote of an earlier term, and ends with two leaders in one term |
| NodeEffects.MessageTerm | navi/election.go:108-121 | After any message a node is in the higher of its own term and the message's |
| NodeEffects.HigherTermDeposes | navi/election.go:108-121 | Any message of a higher term, request or response, makes the node a follower of that term without an addition in flight, and without a vote unless it has just granted one |
| NodeEffects.RoleAfterMessage | navi/replication.go:153-176 | A message of no higher term changes the role only of a candidate that hears from a leader of its own term |
| NodeEffects.MessageKeeps | navi/replication.go:153-252 | No message makes a node apply anything, and none but an append request touches its log, commit index or member ids |
| NodeEffects.TimeoutEffect | navi/election.go:13-38 | A timeout gives an active node the next term, the role of candidate and its own vote alone, and does nothing to a passive one |
| NodeEffects.NewerLogWins | navi/election.go:144-149 | Of two logs one is up to date with the other; a later last term decides, and between equal ones the length |
| NodeEffects.VoteGrantedIff | navi/election.go:123-158 | A vote is granted if and only if term, earlier vote, and last term and index allow it, spelled out; and who has the vote afterwards |
| NodeEffects.CandidateHeard | navi/election.go:66-158 | A node of an earlier term votes for the candidate that asks it if and only if that has the newer or the longer log, and is then in its term |
| NodeEffects.VoteRecordedIff | navi/election.go:87-103 | A response records the vote of its sender, and nothing else, if and only if it grants one in the term of the request |
| NodeEffects.MajorityIffQuorum | navi/election.go:164 | A set of members reaches the quorum if and only if it is more than half of them |
| NodeEffects.QuorumIsLeast | navi/election.go:164 | Two sets of one member less than the quorum need not meet |
| NodeEffects.LeadsIffMajority | navi/election.go:160-198 | A node takes the lead, with an empty entry of its term, if and only if more than half of its members have voted for it; otherwise nothing happens |
| NodeEffects.FirstRequest | navi/election.go:171-195 | A new leader's first request to anyone is empty and right behind that entry |
| NodeEffects.CommandsInOrder | navi/replication.go:20-34 | Entry i behind the old log of a leader is command i of the batch, in its term; a node that does not lead takes over none |
| NodeEffects.RequestTells | navi/replication.go:91-118 | A request carries the leader's term, id and commit index, the entry before `nextIndex`, and up to 8000 entries from there |
| NodeEffects.AppendAcceptedIff | navi/replication.go:153-187 | A request is accepted if and only if it is of no earlier term, the receiver does not lead that term, and it holds the previous entry |
| NodeEffects.AppendRefused | navi/replication.go:167-187 | A refused request changes neither log nor commit index nor member ids |
| NodeEffects.AppendCommits | navi/replication.go:244-246 | On acceptance the commit index follows the leader's as far as the log goes and does not fall, if and only if no committed entry was cut |
| NodeEffects.CommitIndexCanFall | navi/replication.go:244-246 | An input on which it falls |
| NodeEffects.AdoptsAddition | navi/replication.go:230-241 | A config change right behind the receiver's log takes effect at once: whom it adds comes last, with its address, and needs next what comes behind it |
| NodeEffects.WokenIff | navi/replication.go:168-178 | A passive node is woken by any request that is of no earlier term, accepted or not |
| NodeEffects.StaleAnswer | navi/replication.go:135-138 | A leader drops an answer to a request of another term; a node that no longer leads notes it down all the same |
| NodeEffects.AnswerNoted | navi/replication.go:140-148 | An answer in time moves both indices of its sender behind what it confirms, or `nextIndex` back by one but not below 1, and changes nothing else |
| NodeEffects.AddedIff | navi/membership.go:131-173 | A member is added if and only if the node leads, has no addition in flight, does not list the id and the list fits; which of these fails first decides the answer, and then nothing changes |
| NodeEffects.AppliesIffCommitted | navi/replication.go:283-313 | A node of any role applies one entry if and only if the next one is committed, hands over its command unless that is empty or a config change, and then has no addition in flight any more if it was this one |
| NodeEffects.AppliesAll | navi/replication.go:283-313 | Every commit step applies one more entry until none is left, and what has been handed over is told by the log, at every moment |
| NodeEffects.AppliedInFull | navi/replication.go:283-313 | After as many steps as there are committed entries left, all commands of the committed log have been handed over |
| NodeEffects.RestartEffect | navi/persistence.go:113-171 | A restart keeps term and log, makes a follower without a vote, and starts the application over in a new process only |
| NodeInvariants.RebuildForgetsVote | navi/membership.go:116-129 | A rebuild gives the node's own entry back as configured, whatever vote it is passed |
| NodeInvariants.VoteKeptIffNoConflict | navi/replication.go:212-220 | Accepting entries keeps the node's vote of the term if and only if nothing was cut or there was no vote |
| NodeInvariants.SecondVoteIff | navi/election.go:144-156 | A node that has voted grants a second candidate of the term its vote if and only if the entries accepted in between cut its log and that candidate is up to date with the rest |
| NodeRun.LogOkRun | navi/replication.go:153-252 | Over any run of one node, restarts included, index 0 is the sentinel, terms ascend up to the current one, and a candidate's log is older than its term |
| NodeRun.LeaderAppendOnly | navi/election.go:108-121 | Over any run of one node, a leader that has not stopped and is still in its term is still its leader, with a log that has only grown |
| NodeRun.TermNeverDown | navi/election.go:108-121 | Over any run of one node, restarts included, the term never goes down |
| NodeRun.OneInFlight | navi/membership.go:131-173 | In any run in which client commands are no config changes, two unapplied config changes of a leader's own term are the same entry, at the pending index, and further additions are refused |
| NodeInvariants.PendingStep | navi/replication.go:291-296 | Every event keeps it that a leader's config change of its own term that is not applied yet is at the pending index |
| NodeInvariants.IdleStep | navi/server.go:128-134 | An event gives a node that does not lead a pending index if and only if it is `Start` after `Stop` on an object that had one |
| NodeInvariants.RestartedVotesIff | navi/persistence.go:113-171 | After a restart a node grants a vote in its term, whatever vote it gave before, if and only if the candidate is up to date with its log |
| NodeRun.MembershipFollowsLog | navi/membership.go:75-129 | Nodes with the same founding members and equal logs have equal ids and addresses, whatever happened to them, restarts included; ids are distinct and each node finds itself |
| ClusterMembership.SameLogEndSameMembers | navi/membership.go:75-129 | In a growing cluster, nodes with the same founding members whose logs end at one index in one term list the same ids and addresses, those of the fold of the log; ids are distinct and each node finds itself |
| ClusterMembership.AdditionNamesAll | navi/membership.go:155-172 | The entry of a successful addition names the newcomer and everyone who founded the leader's cluster |
| ClusterMembership.JoinerListsSame | navi/membership.go:116-129 | A node that founded only itself lists the same ids as the leader that added it, once its log ends where that leader's log ends and that still has the addition |
| ClusterMembership.ConfigEventInRun | navi/replication.go:230-241 | Every change of a node in such a run meets the premise of the fold: a request re-delivers the very entries the node already holds in the same term |
| NodeMembership.ConfigStep | navi/replication.go:212-241 | Addition, append, re-delivery and truncation keep the cluster's ids and addresses equal to the fold of the log's config changes |
| NodeMembership.AdditionAddsOne | navi/membership.go:155-172 | A successful addition puts one member last, without a vote and with `nextIndex` behind the new entry, changes nobody else, and appends one entry that decodes to exactly the new members |
| NodeMembership.GrowthQuorumsMeet | navi/membership.go:148-169 | Any majority of the cluster before an addition meets any majority of the cluster after it |
| NodeRun.AppliedInOrder | navi/replication.go:283-313 | Between any two times of one process of a node that keeps committed entries the state machine gets exactly the commands of the entries applied in between, in order; the next entry to apply is always there |
| Raft.HandleWellFormed | navi/membership.go:106-114 | No step leaves a node that does not find itself in its cluster, so the lookup never panics |
| Membership.ConfigRoundTrip | navi/membership.go:31-73 | A member list that fits a record is decoded from its command, in order, with the same ids and addresses |
| Membership.ConfigLayout | navi/membership.go:31-54 | Where marker, count, and id, address length and address of every member are in a config change |
| Membership.MarkerDecides | navi/membership.go:16-18 | The first byte alone decides whether a command is taken for a config change, and some that are do not decode |
| Membership.DecodesIffStarts | navi/membership.go:56-73 | A command decodes to a member list if and only if it starts with the list's encoding |
| Membership.EncodeConfigChange | navi/membership.go:31-54 | Encoding succeeds if and only if 2 plus 9 plus the address length per member is at most 112 |
| Membership.DecodeConfigChange | navi/membership.go:56-73 | The decoding loop agrees with the recursive decoder on every input, and fails exactly where the original slices out of range |
| Membership.MergeClusterConfig | navi/membership.go:75-104 | The loop over the incoming members is the union the other membership lemmas speak about |
| Membership.MergeGrows | navi/membership.go:75-104 | A merge keeps the current members with their bookkeeping as a prefix, adds exactly the unknown ids, and keeps ids distinct |
| Membership.FoldAdds | navi/membership.go:116-129 | Every member that the fold of a log adds was named by a config change, with its address, and begins right behind it |
| Membership.MergeOneMore | navi/membership.go:75-104 | One more incoming member changes nothing if it is listed, else comes last with its address, where to begin, and, for the node itself, its vote |
| Membership.MergeIdempotent | navi/replication.go:232-241 | Merging a config again, wherever and with whatever vote, changes nothing |
| Membership.ResolveClusterIndex | navi/membership.go:106-114 | The scan finds the first member with the id |
| ServerNode.Server.RebuildClusterFromLog | navi/membership.go:116-129 | The loop folds the log's config changes over the founding members, and the node finds itself in the result |
| ServerNode.Server.AddServer | navi/membership.go:131-173 | In place: the outcome and the new state are the model's, a refused addition leaves log, cluster and file as they were, and an accepted one is filed |
| ServerNode.Server.Persist | navi/persistence.go:36-97 | Header and the last records, encoded into one reused buffer, give exactly the file image of the model |
| ServerNode.Server.EncodeRecords | navi/persistence.go:61-87 | The loop over one buffer that is never cleared writes the records of the model |
| LogFile.PersistAgrees | navi/persistence.go:36-97 | Writing only the header and the records from the first change on makes the whole file agree with the new log, left-over bytes and unwritten index 0 included |
| LogFile.FiledLayout | navi/persistence.go:36-97 | Where term, vote and length, and term, length and command of every record are in a written file |
| LogFile.PersistAllAgrees | navi/persistence.go:36-97 | Writing with no count of new entries brings any file, whatever it held, into agreement with the log |
| LogFile.RecordsLeaveOver | navi/persistence.go:61-87 | Behind a command its record holds what the record before it left in the buffer |
| LogFile.ReadBack | navi/persistence.go:113-171 | A file that agrees with memory reads back exactly if and only if it is empty or has a record |
| LogFile.RestoreRecovers | navi/persistence.go:137-171 | With the same founding members, restore gives back term, log, ids and addresses; file and memory then agree in the vote as well if and only if the filed vote equals the configured one |
| LogFile.RestoreIsRestart | navi/persistence.go:113-171 | A new server that reads a file agreeing with a node is that node, restarted in a new process; the same object that reads it is that node, restarted by `Stop` and `Start` |
| LogFile.ImageAgrees | navi/persistence.go:137-167 | Whatever a file holds, if it reads as records that start with the sentinel, file and reading agree byte for byte |
| LogFile.RestoreEmpty | navi/persistence.go:132-136 | On an empty file the node starts with the sentinel and its founding members, in agreement with the file if and only if it is configured without a vote |
| ServerNode.Server.Restore | navi/persistence.go:113-171 | In place: succeeds exactly where the original does not panic, and then leaves the model's restored node; on any file such as a server writes, the result is a valid server again, vote or no vote |
| ServerNode.Reopen | navi/persistence.go:113-171 | A new server on the storage of a valid one that has filed a record restores without a panic, is valid, and is that server's node restarted |
| ServerNode.Server.SetVotedFor | navi/persistence.go:180-189 | Only the node's own entry changes, and only its vote |
| LittleEndian.Put64Bytes | navi/persistence.go:49-51 | Byte i of a 64-bit word is its digit of weight 256 to the i |
| LittleEndian.Word64RoundTrip | navi/persistence.go:49-51 | A 64-bit number is read back from its eight bytes |
| Storage.WriteAt | navi/storage.go:70-84 | A write lands at its position, leaves every other byte, and fills a gap with zeros |
| Storage.MemStorage.Write | navi/storage.go:70-84 | The file is the old one with the bytes at the old position, and the position moves behind them |
| Storage.MemStorage.Read | navi/storage.go:57-68 | End of file exactly if nothing is left; otherwise the bytes at the position, as many as there are |
| Storage.MemStorage.Seek | navi/storage.go:34-55 | Fails exactly on an unknown origin or a negative target, and then leaves the position |
| KvCommand.CommandRoundTrip | cmd/kv-api/main.go:36-73 | An encoded command always decodes, and to itself if and only if it is a set or has no value |
| KvCommand.DecodeCommand | cmd/kv-api/main.go:60-73 | The field-by-field decoder agrees with the specification on every input and fails exactly where the original slices out of range |
| KvCommand.LanguagesDisjoint | navi/membership.go:16-18 | An encoded command is never empty, looks like a config change only if its kind is the marker, and no config change decodes as a set or get |
| KvCommand.Routed | navi/replication.go:286-298 | A set or get in the log goes to the state machine unchanged, a config change never does |
| KvCommand.ReplayIsLastWrite | cmd/kv-api/main.go:75-93 | After any commands the map holds a key if and only if some command set it, with the value of the last one that did |
| KvCommand.StateMachine.Apply | cmd/kv-api/main.go:75-93 | In place: a get is answered with the value of the last set of its key in the history, or with there being none, and changes nothing; a set is stored; the map stays the one its history builds |
| KvCommand.ReadsLastWrite | cmd/kv-api/main.go:81-87 | After any commands a get replies with the value the last set gave its key, and that the key is not found if and only if no command set it |
| KvCommand.AnswersAgree | cmd/kv-api/main.go:81-87 | After a history there is only one right answer to a get |
| KvCommand.ClientCommands | cmd/kv-api/main.go:106-150 | What the set handler sends sets just its key to its value, what the get handler sends asks for just its key |
| KvCommand.DecodesIffStarts | cmd/kv-api/main.go:60-73 | A message decodes to a command if and only if it starts with its encoding, of which only a set's includes a value |
| KvCommand.EncodedLayout | cmd/kv-api/main.go:36-58 | Where kind, key length, key, value length and value are in an encoded command |
| KvReplication.ReadThroughLog | cmd/kv-api/main.go:119-150 | A read that goes through the log is answered with the last set of its key before it in the log, by whichever node and whenever it is applied |
| KvReplication.EqualProgressEqualMaps | cmd/kv-api/main.go:75-93 | Two nodes that have applied equally far have the same map |
| KvReplication.LaggingReplicaReadsPast | cmd/kv-api/main.go:75-93 | A node that lags behind has the same value for every key that the commands it lacks do not set |

## Left out

- Transport, clock, goroutines and the mutex: each locked region is one step, messages are values, a timeout may fire at any time.
- Slices shared between a leader's backing array and requests in flight; the array is owned by one node here.
- Result channels to clients, logging, and the heartbeat timer, which only decides when requests are sent.
- 64-bit wrap-around of terms, indices and file positions: they are natural numbers, except the decrement of `nextIndex`, which wraps as in the code.
- Slicing beyond a slice's length but within its capacity, which Go allows in both decoders: the model treats it as the panic it usually is.
- `FileStorage`, `bufio` chunking, `Sync`, write errors, and a crash in the middle of `persist`.
- Elections and commitment in a cluster that grows: those theorems are about a fixed cluster. `Counterexamples.AdditionElectsTwice` shows why.
- Liveness: that elections end, and that leaders stay long enough.
- ServerNode.Server.HandleAppendEntriesRequest: requires that config changes decode and commands fit a record when the
  request is accepted, because the original panics otherwise; `ClusterMembership.DigestibleInRun` says they do.
- ServerNode.Server.HandleRequestVoteResponse: requires that the peer is not the node itself, which the code ensures when it sends the request.
- ServerNode.Server.Timeout: whether the election timer has run out is a parameter; resetting it is not part of this model.
- NodeMembership.ConfigStep: takes from the cluster that entries of one term at one index are equal, which `ClusterMembership.ConfigEventInRun` proves.
- ClusterNoPanic.GrowingDelivery: is about messages under way; a goroutine that is yet to build a request for a slot cut off since is not part of it.
- ClusterNoPanic.DeliveryNeverPanics: is about the Raft core; the state machine of `cmd/kv-api` may panic on a command it did not encode.
- NodeRun.AppliedInOrder: takes as given that committed entries stay, which `ClusterSafety.CommitIndexGrows` proves for a fixed cluster.
- KvReplication.EqualProgressEqualMaps: the concurrent map is a plain map, and replies reach nobody.
- The HTTP handlers, argument parsing and relaxed reads of `cmd/kv-api`, the terminal program `cmd/navi-cli`, and `navi/debug.go`.
