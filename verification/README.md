# Verified model of the sharded Raft key/value store

The repository holds three things: a linearizability checker for recorded histories (`src/porcupine`, with the
key/value specification in `src/models`), a Raft implementation (`src/raft`), and a key/value service built on it
(`src/kvraft`). This project models all three and proves what each is for. One predicate, `Linearizable`, is shared:
it is what the linearizability checker decides, what the partition by key preserves, and what the service's
client-visible histories satisfy; the last theorem puts these together.

**The linearizability checker.** `CheckSingle` is the backtracking search with its mutable doubly linked list, undo
stack, in-place bit set and memo table, split into one method for each branch of the loop. Its contract says that it
terminates, that without a kill its answer is exactly `Linearizable` (so pruning by memo table and by the first
return loses nothing), and that the recorded partial linearizations are longest. The proof keeps a set of dead
configurations that is closed under every step a pending operation could take; completeness and maximality both
follow from closure. `CheckParallel`, `CheckOperations` and `CheckKvOperations` carry the verdict through
partitions, any order of arrival, timeouts and the unstable sort, and `CheckEvents` does so for histories given as
events; `PartitionIsLocal` is the locality of the partition by key. A model brings its own equality of states; all the
search asks of it is `EqualAgrees`, that no step of the model can tell equal states apart.

**Raft.** `RaftServer` gives the regions under the lock as functions on values, `RaftNode.Raft` is the object with
its fields and methods, each proved equal to its function, and `RaftCluster` is the step system over those
functions, with loss, delay, reordering, repeated delivery and crashes. Modelling assumptions: each server has at
most one live `startAsCand`; deciding Win and `setLeader` are one step; every region that builds
`AppendEntriesArgs` runs while the server is Leader; `Make` is atomic; payloads are copied. Nothing of the kind is
assumed of `Start`, whose check for leadership and whose append are two regions and two steps. Where the model allows
more than the code, it is to need less of it: a candidacy may begin at any time, an append may start after any index,
and any message that was ever sent may arrive again at any time, also after a crash. Two facts of the code differ
from the textbook and are kept: a server that has never persisted anything comes up with `VotedFor` 0 rather than -1
(`readPersist` overwrites the -1 of `setRaft` with a zero value), and a vote request of an older term is not rejected
outright, so a granted reply may carry a larger term than was asked for (it then ends the candidacy instead of
counting). What `RaftRuns` keeps, and with it Election Safety, one vote per term and the order of applying, holds in
every run; the grounding of all logs in the leaders' logs, and with it Log Matching, in every run in which the append
regions of `Start` fit. `RaftVotes` says over runs which logs a vote has compared. `RaftCommit` follows an entry from
the acknowledgement of an append to the leader's commitIndex, to the heartbeat that tells it, and to the command each
server emits; `RaftReplication` adds that the majority counted for a commit has had logs that long.

**The key/value service.** `KvServer.KVServer` is the server object; the log it applies between two acquisitions of
the lock is a parameter of the handlers. `KvCluster` is the service over one agreed log: servers apply prefixes of
one growing log, each entry is a copy of an operation invoked before, and (client, id) pairs are distinct.
`History` is what clients see: every call that returned, and every write that took effect without returning, which
gets the present as its return time. `GetAnswers` and `PutAppendAnswers` show that what the handlers of the object
answer are steps of the service.

Three claims about the code fail in general, and the project gives the failing input and the exact condition of each.

- When one operation returns at the very time another is called, the unstable sort may decide the verdict:
  `TiesChangeTheVerdict` is such a history. `SortIndependence` gives the condition for all histories: every sort leads
  to the verdict on the timed history if and only if that history is not linearizable, or is so with touching
  operations kept apart. If no two operations look alike, this is so for every specification if and only if there are
  no ties (`NoTiesExactly`), which can be seen beforehand.
- `Start` tests for leadership in one region under the lock and appends in a later one. `LogMatchingFails` is a run of
  five servers in which a server passes the test in term 1, follows the leader of term 2, and then appends an entry
  of term 2 of its own: two logs differ at one index and term. For a server that does not lead, `AppendGrounded` says
  exactly which entry keeps its log grounded in the leaders' logs: the one the leader of its term has there.
  `RunInvExactly` carries this to runs: all logs are grounded throughout if and only if every append region fits, that
  is, still finds its server leading or adds that entry; and then Log Matching holds.
- The resend loop of `StartOnePeerAppend` slices beyond the leader's log, a panic, exactly when the first rejection
  points past its end; the method states the condition as an equivalence. `PanicReachable` is a run of five servers
  that gets there: the leader of term 1 sends three entries to one peer, is overwritten in term 2, leads again in
  term 3, and only then gets the success reply of term 1.

`dafny verify dfyconfig.toml` checks the whole project.

## Model

| member | source | states |
|---|---|---|
| Bitset.NewBitset | src/porcupine/bitset.go:10-17 | a new bit set is empty and has just enough 64-bit words for the asked number of bits |
| Bitset.Clone | src/porcupine/bitset.go:19-23 | the copy has the same words in storage of its own |
| Bitset.Set | src/porcupine/bitset.go:29-33 | in place, the stored set gains exactly this number |
| Bitset.Clear | src/porcupine/bitset.go:35-39 | in place, the stored set loses exactly this number |
| Bitset.Get | src/porcupine/bitset.go:41-44 | decides membership in the stored set |
| Bitset.Popcnt | src/porcupine/bitset.go:46-52 | the cardinality of the stored set |
| Bitset.TotalIsCardinality | src/porcupine/bitset.go:46-52 | adding up the one bits of all words counts every element of the stored set once |
| Bitset.Hash | src/porcupine/bitset.go:54-60 | the hash is a function of the words alone |
| Bitset.HashBits | src/porcupine/bitset.go:54-60 | each bit of the hash is the parity of that bit over all words and the population count |
| Bitset.Equals | src/porcupine/bitset.go:62-72 | true exactly for equal lengths and equal stored sets |
| Bitset.ElemsInjective | src/porcupine/bitset.go:54-72 | equal sets of one length are the same words, hence hash equally |
| Words.BitsOfOps | src/porcupine/bitset.go:29-39 | or-ing in a bit, or and-ing it out, changes that bit and no other |
| Cache.CacheContains | src/porcupine/checker.go:140-147 | a lookup decides whether a configuration with the same operations and an equal state is recorded, for any pattern of hash collisions |
| Cache.CacheAdd | src/porcupine/checker.go:196-197 | the table records exactly one more configuration, in the bucket of its hash |
| Cache.RecordedInBucket | src/porcupine/checker.go:135-147 | an equal recorded configuration can only be in the bucket the entry's own hash selects |
| Cache.Enter | src/porcupine/checker.go:193-197 | looking up the successor configuration says whether it is new, and adds it if so, leaving the current bit set alone |
| LinkedEntries.InsertBefore | src/porcupine/checker.go:65-76 | the new node stands directly before the mark and all links of the chain are in order |
| LinkedEntries.Length | src/porcupine/checker.go:78-85 | the number of nodes in the chain |
| MakeLinked.MakeLinkedEntries | src/porcupine/checker.go:116-133 | fresh nodes, chained in entry order, each call knowing the node of its own return |
| MakeLinked.BuiltNodesFor | src/porcupine/checker.go:116-133 | the nodes stand at the positions of their operations' calls and returns |
| LinkedEntries.Lift | src/porcupine/checker.go:154-162 | the chain loses exactly the call and its return, which keep pointing to their former neighbours, also when adjacent or last |
| LinkedEntries.Unlift | src/porcupine/checker.go:164-172 | restores every link of the chain as it was before the lift |
| RemainingList.RestIsListFor | src/porcupine/checker.go:174-238 | the list without the taken operations is in time order and holds both nodes of every pending operation |
| RemainingList.RestDropsPair | src/porcupine/checker.go:154-162 | leaving an operation out of the original order is removing its two nodes from the current list |
| ListSteps.AfterCall | src/porcupine/checker.go:203-208 | a call on the list always has a next entry, and no pending call lies between the two |
| ListSteps.CallMayBeNext | src/porcupine/checker.go:189-191 | a call with only calls before it is one no pending operation has to precede |
| ListSteps.PairOnList | src/porcupine/checker.go:154-162 | where a pending operation's nodes are, and what the list becomes without them |
| SearchStack.LiftCall | src/porcupine/checker.go:198-202 | after taking a call the list is the original order minus the stack, and every level can still be put back |
| SearchStack.UnliftCall | src/porcupine/checker.go:230-236 | undoing the top of the stack gives back the list of the level below, links included |
| Search.SkipStep | src/porcupine/checker.go:203-208 | passing over a refused or already cached call leaves every branch before the next entry dead |
| Search.SuccNotOnPath | src/porcupine/checker.go:195-205 | a successor configuration is larger than all on the path, so a cache hit is a dead end |
| Search.PushStep | src/porcupine/checker.go:195-202 | taking a call keeps the invariant for the longer path, with the scan back at the front |
| Search.ExhaustedAtReturn | src/porcupine/checker.go:209-212 | at a pending return every operation that could be next has been tried |
| Search.PopStep | src/porcupine/checker.go:230-236 | backing out makes the configuration dead and keeps the invariant at the level below |
| Search.PathMeaning | src/porcupine/checker.go:185-205 | the stack is a legal partial linearization and the search state is what replaying it gives |
| Search.PartialsAreDead | src/porcupine/checker.go:183-238 | after an exhausted search every partial linearization ends in a dead configuration, up to equal states |
| Search.SuccOfEqual | src/porcupine/model.go:40-42 | a step possible in a state is possible in an equal one and leads to an equal one, so pruning by equality loses no branch |
| Search.ExhaustedRefutes | src/porcupine/checker.go:209-212 | an exhausted search of a non-empty history refutes every linearization |
| Search.ExhaustedMaximal | src/porcupine/checker.go:213-229 | records covering all dead configurations are longest for every operation |
| Search.MaximalListed | src/porcupine/checker.go:318-332 | the set of recorded orders still holds a longest one through every operation |
| Search.PathInUniverse | src/porcupine/checker.go:195-197 | every configuration the search can cache lies in one finite set, the bound of its termination |
| Linearizability.LinearizationIffFullPartial | src/porcupine/checker.go:239-247 | linearizations are exactly the partial linearizations that hold every operation |
| Checker.UpdateLongest | src/porcupine/checker.go:214-229 | exactly the operations on the stack without an order as long as it get the stack recorded |
| CheckerSteps.RecordedAfterPop | src/porcupine/checker.go:213-234 | recording the stack when leaving a configuration keeps the records sound and covering |
| Checker.TryCall | src/porcupine/checker.go:189-208 | one call examined: a new configuration joins cache and path, or the scan moves on by one entry |
| Checker.BackUp | src/porcupine/checker.go:209-237 | one backtracking step: path one shorter, its configuration dead, the stack recorded |
| Checker.CheckSingle | src/porcupine/checker.go:174-248 | terminates; unless killed true exactly for linearizable entries; killed if the flag is set from the start; recorded orders always replay and are longest when the search completes; when true they are linearizations |
| Sorting.Sort | src/porcupine/checker.go:29-41 | an ordered permutation, and nothing about the order of equals |
| Histories.MakeEntries | src/porcupine/checker.go:43-55 | the calls and returns of all operations, once each, in time order |
| Histories.EntriesWellFormed | src/porcupine/checker.go:43-55 | when calls precede returns the sorted entries pair up, call first |
| Histories.EntriesVerdict | src/porcupine/checker.go:43-55 | the verdict on the entries lies between the two readings of touching operations, and without ties is the verdict on the timed history |
| Histories.ReturnsFirstVerdict | src/porcupine/checker.go:39-55 | some admissible sort is linearizable exactly if the history is with touching operations kept apart |
| Histories.CallsFirstVerdict | src/porcupine/checker.go:39-55 | some admissible sort is linearizable exactly if the timed history is |
| Histories.SortIndependence | src/porcupine/checker.go:39-55 | the exact condition under which every admissible sort gives the verdict on the timed history; otherwise two sorts get opposite verdicts |
| TieModels.NoTiesExactly | src/porcupine/checker.go:39-55 | for operations that can be told apart, the verdict of every specification is independent of the sort if and only if there are no ties |
| Ties.TiesChangeTheVerdict | src/porcupine/checker.go:39-55 | a history with a tie whose two admissible sortings get opposite verdicts |
| Events.Renumber | src/porcupine/checker.go:87-101 | every id becomes the number of ids that occurred before it first did, and nothing else changes |
| Events.RenumberedIds | src/porcupine/checker.go:87-101 | new ids are equal exactly where the old ones were, and all numbers below their count are used |
| Events.ConvertEntries | src/porcupine/checker.go:103-114 | the same events as entries, with their positions as times |
| Events.ConvertedWellFormed | src/porcupine/checker.go:103-114 | complete event histories give well-formed entries after renumbering |
| Events.ConvertedOps | src/porcupine/checker.go:103-114 | the operations of those entries are the operations of the events, in the order of their calls |
| Events.CheckEvents | src/porcupine/checker.go:350-358 | Illegal exactly when a partition received before the timer is not linearizable, ties or not; else Unknown exactly when the timer came first, else Ok; listed orders replay, and are longest for every search that finished |
| Parallel.Uniques | src/porcupine/checker.go:318-331 | each recorded order once, and no others |
| Parallel.CheckParallel | src/porcupine/checker.go:269-348 | whatever order results arrive in: Illegal exactly when a result received before the timer is a rejection, else Unknown exactly when the timer came first, else Ok; the listed orders are the recorded ones, and longest for every search that finished |
| Verdict.CheckOperations | src/porcupine/checker.go:360-368 | the same for timed operations: Ok, Illegal and Unknown exactly as by what was received before the timer; every listed order replays, and a longest one is listed through every operation of a finished search |
| Verdict.CheckKvOperations | src/porcupine/porcupine.go:5-8 | without timeout and ties the answer is Ok exactly when the history of the whole store is linearizable; with a timeout it is as by the groups received before the timer |
| Visualization.Replay | src/porcupine/visualization.go:62-73 | replaying a partial linearization never reaches the panic and shows each state it passes |
| Visualization.UpdateLargest | src/porcupine/visualization.go:73-76 | operations on this list whose best list so far is shorter now point to it, all others stay |
| Visualization.VisualizePartition | src/porcupine/visualization.go:33-87 | every operation shown with its times, every list replayed, longest lists first, Largest pointing to the first longest list through each operation |
| Visualization.ShowsOperations | src/porcupine/visualization.go:33-53 | what is shown of an operation is its own client and its own call and return time |
| Visualization.LargestIsMaximal | src/porcupine/visualization.go:55-79 | for the lists of a completed check Largest points to a longest of all partial linearizations and omits exactly the operations on none |
| KvModel.GroupByKey | src/models/kv.go:22-26 | for every key that occurs, its operations in history order |
| KvModel.Partition | src/models/kv.go:21-36 | one group for each key, in key order, each the operations of that key in history order |
| KvModel.LexLeqAscends | src/models/kv.go:31 | keys are compared by the first character in which they differ, a prefix coming first |
| Locality.Projection | src/models/kv.go:43-56 | replaying the store replays every key on its own, a missing key reading as empty |
| Locality.LegalPerKey | src/models/kv.go:43-56 | an order legal for every key is legal for the store |
| Locality.StoreToKey | src/models/kv.go:21-36 | a linearization of the store gives one for each key |
| Locality.MergeLinearizes | src/models/kv.go:21-36 | linearizations of all keys merge, by the latest call so far, into one of the store |
| Locality.PartitionIsLocal | src/porcupine/model.go:28-31 | a history is linearizable if and only if every group of its partition is |
| RaftNode.Raft.constructor | src/raft/raft.go:44-77 | a server starts with what its disk holds and otherwise empty |
| RaftNode.Raft.StartApply | src/raft/raft.go:448-457 | emits exactly the entries after lastApply up to the index, in order, each with its own command |
| RaftCommit.HandlerEmits | src/raft/handler.go:37-62 | a follower commits and emits on CommitAndHeartBeat alone: up to the smaller of what it is told and its log |
| RaftCommit.AnswerTells | src/raft/handler.go:22-70 | what an answer tells: the server's term by then, and that an older append was refused and changed nothing |
| RaftCommit.StepEmits | src/raft/raft.go:448-457 | whatever a step emits is, index by index, in the server's log after the step, with its command |
| RaftCommit.EmittedWasCommitted | src/raft/handler.go:58-61 | over runs no server emits an index that no leader's commitIndex had reached |
| RaftCommit.MessagesSent | src/raft/raft.go:239-247 | every append and heartbeat in flight carries the term, commitIndex and entries its leader had when it sent it |
| RaftNode.Raft.HandleAppendEntries | src/raft/handler.go:22-70 | new state, reply and disk are those of the handler function |
| RaftNode.Raft.HandleRequestVote | src/raft/handler.go:72-98 | new state, reply and disk are those of the voting function |
| RaftVotes.VoteExactly | src/raft/handler.go:72-98 | a server free to vote refuses exactly the logs that end in a smaller term than its own, or in the same term but shorter; what becomes of vote, term and role |
| RaftVotes.FirstVote | src/raft/raft.go:484-496 | a server that never persisted anything reads back a vote for server 0 and grants nothing in term 0 |
| RaftVotes.CandidacyAsks | src/raft/raft.go:136-145 | a candidacy asks for the next term, with where its log ends |
| RaftVotes.ReplyExactly | src/raft/raft.go:163-180 | what every vote reply does to the server that asked and to its count |
| RaftVotes.RequestsAsked | src/raft/raft.go:136-158 | every request in flight comes from a candidacy of the run and tells the log of that moment |
| RaftVotes.VoteComparesLogs | src/raft/handler.go:72-98 | over runs: a granted vote means that the voter's log ends in a smaller term or is a prefix of the candidate's; a refusal by a free server, that its log ends in a larger term or extends the candidate's |
| RaftNode.Raft.StartCandidacy | src/raft/raft.go:136-145 | a new term, a vote for itself, persisted, and the matching request |
| RaftNode.Raft.ReceiveVote | src/raft/raft.go:163-180 | a larger term ends the candidacy and is persisted; otherwise a granted vote counts only for a candidate |
| RaftNode.Raft.StartLeadership | src/raft/raft.go:198-216 | tables reset for every peer, last entry taken over into the new term, disk untouched |
| RaftCommit.NewLeader | src/raft/raft.go:198-216 | a new leader holds every peer for unreachable, closed and empty, so its first append carries the whole log and its heartbeats commit nothing yet |
| RaftCommit.RunDurable | src/raft/raft.go:459-482 | in every state of every run the disk holds the log in memory, but for a new leader's term of the last entry |
| RaftCommit.CrashLoses | src/raft/raft.go:484-496 | a crash loses no entry, term or vote; emitting starts again at index 1 |
| RaftCommit.CrashAfterWin | src/raft/raft.go:198-216 | a winner does not persist the new term of its last entry: a crash right after the victory takes it back |
| RaftFrames.StepOnlyWrites | src/raft/raft.go:123-457 | which fields of its server each step may write; everything else, and every other server, stays |
| RaftNode.Raft.CountHolders | src/raft/raft.go:426-435 | one more than the number of other live peers known to hold the index |
| RaftNode.Raft.UpdateCommitForLeader | src/raft/raft.go:421-446 | commitIndex moves exactly to the largest new index a strict majority holds, if there is one and this is a leader |
| RaftCommit.MajorityIsBacked | src/raft/raft.go:424-438 | that majority is more than half of the servers: the leader and live peers whose match reaches the index |
| RaftCommit.CommitsLargestBacked | src/raft/raft.go:386-398 | after a match a leader has committed the largest index so backed and emitted up to it; any other server nothing |
| RaftNode.CommitCovers | src/raft/raft.go:421-446 | every newly covered index has that majority |
| RaftNode.Raft.RecordMatch | src/raft/raft.go:386-397 | the peer's tables are set, then committing and applying follow |
| RaftCommit.TablesExactly | src/raft/raft.go:201-214 | what every step does to what a server holds of a peer: open to commits, alive, match and next index |
| RaftCommit.OpenExactly | src/raft/raft.go:388-391 | a peer is open to commits exactly from the acknowledgement of an append until it is noted unreachable or the server wins again or crashes |
| RaftReplication.MatchWasHeld | src/raft/raft.go:388-391 | over runs: what a leader takes a peer to hold is the length the peer's log had when it took over an append of that leader |
| RaftReplication.CommitWasHeld | src/raft/raft.go:408-446 | over runs: whatever index a leader newly commits, more than half of the servers, it included, have had a log reaching it, the others by taking over its appends |
| RaftCommit.HeartbeatsCommit | src/raft/raft.go:239-247 | exactly then the heartbeats to it are those that commit; all carry the commitIndex |
| RaftCommit.CommitArrives | src/raft/raft.go:239-252 | a committing heartbeat answered by a peer with a log long enough makes it emit up to the leader's commitIndex |
| RaftCommit.OvertakenStepsDown | src/raft/raft.go:265-271 | a leader of an older term steps down once it gets the answer of a server of a later term |
| RaftRuns.StepDownMoves | src/raft/raft.go:265-271 | and no other answer makes it step down |
| RaftNode.Raft.BuildAppend | src/raft/raft.go:345-361 | the first append carries everything after what the peer is known to hold |
| RaftNode.Raft.NextAppend | src/raft/raft.go:400-414 | a resend starts at the follower's last index or one step back, and exists only within the leader's log |
| Backoff.RoundEffect | src/raft/handler.go:37-57 | each refusal tells where to start next, further down; acceptance makes the follower's log the leader's as sent |
| Backoff.StartOnePeerAppend | src/raft/raft.go:339-419 | whatever happens to the follower between calls and whatever the leader appends meanwhile, the resend loop ends within the initial index plus one calls, with the follower's log equal to the leader's as sent last, except exactly when the first refusal points beyond the leader's log or a call gets no answer |
| BackoffRuns.LeaderComparable | src/raft/raft.go:339-419 | where all logs are grounded, a leader and any server in no later term are as the loop needs them |
| BackoffRuns.RunTables | src/raft/raft.go:198-209 | in every state of every run a leader knows a match for every peer, and none is negative |
| BackoffRuns.SyncInRun | src/raft/raft.go:339-419 | back-off as above over a run whose appends of `Start` fit, each call reaching the peer in some state of the run in which it is in no later term |
| StaleReply.PanicReachable | src/raft/raft.go:384-389 | some run reaches a leader whose table says more of a peer than its own log holds, so that the next refusal points beyond it |
| StaleReply.PanicInRun | src/raft/raft.go:400-414 | in that state the loop panics once its first call is answered |
| RaftElection.GrantIsNew | src/raft/handler.go:79-97 | a vote is granted only in a term in which the server has granted none |
| RaftElection.CountedAttempt | src/raft/raft.go:163-180 | a counted vote was granted in the attempt's own term |
| RaftElection.WinIsFresh | src/raft/raft.go:183-196 | nobody can win a term that has a winner, by intersection of majorities |
| RaftElection.StepKeeps | src/raft/raft.go:118-196 | every step keeps the voting invariant, lowers no term and changes no recorded vote or winner |
| RaftLogs.AcceptedIsSent | src/raft/handler.go:49-57 | what a follower makes of a matching append is its leader's log as sent, so rewriting the last term changes nothing |
| RaftLogs.WonLog | src/raft/raft.go:207-215 | taking the last entry over into a fresh term keeps all logs grounded in leaders' logs |
| RaftLogs.SentIsStretch | src/raft/raft.go:345-362 | an append is a stretch of the leader's log ending in the leader's term, or starts beyond it and can never match |
| RaftLogs.AppendKeepsGrounded | src/raft/handler.go:37-62 | handling any append in flight keeps the log grounded and the emitted indices in order |
| RaftLogs.AppendGrounded | src/raft/raft.go:298-307 | a server that does not lead keeps its log grounded by an append exactly when the leader of its term has that very entry there |
| RaftLogs.StepKeepsInv | src/raft/handler.go:22-98 | every step keeps the logs grounded, appends of `Start` as far as they fit |
| RaftLogs.RunInv | src/raft/raft.go:44-56 | all logs are grounded in every state of every run whose appends of `Start` fit |
| RaftLogs.RunInvExactly | src/raft/raft.go:290-307 | a run keeps all logs grounded throughout if and only if every append region of `Start` fits |
| RaftLogs.LeadersFit | src/raft/raft.go:290-307 | they fit in particular when each of them still finds its server leading |
| RaftRuns.StepKeepsWellFormed | src/raft/handler.go:22-98 | every step keeps logs indexed, applying in order and messages as the handlers need them |
| RaftRuns.RunSound | src/raft/raft.go:44-56 | that and the voting invariant hold in every state of every run |
| LateStart.LogMatchingFails | src/raft/raft.go:290-307 | a run whose last step is an append of `Start` by a server that no longer leads, and in which Log Matching fails |
| RaftTheorems.ElectionSafety | src/raft/raft.go:132-195 | two servers that decide Win for one term in a run are one server, in one step |
| RaftTheorems.OneVotePerTerm | src/raft/handler.go:79-97 | over a run, crashes and own candidacies included, a server votes for one candidate in a term |
| RaftTheorems.TermsNeverDecrease | src/raft/raft.go:484-496 | no server's term ever goes down, crashes included |
| RaftTheorems.LogMatching | src/raft/handler.go:37-57 | in runs whose appends of `Start` fit, any stretches of log ever held in memory or on disk or carried in appends that share a term at an index agree on all earlier indices both have |
| RaftTheorems.LogsIdentical | src/raft/handler.go:37-57 | in such runs two servers' logs with one term at one index are identical through it |
| RaftTheorems.AppliedOnceInOrder | src/raft/raft.go:448-457 | every incarnation has emitted indices 1, 2, 3, ... once each |
| RaftTheorems.AppliedOnlyGrows | src/raft/handler.go:58-61 | no step but a crash takes back what was emitted, even when commitIndex moves down |
| KvServer.KVServer.Apply | src/kvraft/server.go:111-135 | one message extends the applied log by one, store and id table following |
| KvServer.KVServer.ReadKey | src/kvraft/server.go:52-58 | the value read under two later locks is the key's value at one moment at which the operation was applied |
| KvServer.KVServer.Get | src/kvraft/server.go:44-74 | answers exactly when the operation shows up within ten polls, with a value the key had while the operation was applied |
| KvServer.KVServer.PutAppend | src/kvraft/server.go:76-104 | answers OK only for an applied operation whose key is present; the error branch needs two operations with one id |
| KvServer.IdsAreTheLog | src/kvraft/server.go:137-146 | the id table knows exactly the ids of the applied log |
| KvServer.DuplicatesSuppressed | src/kvraft/server.go:117-131 | the store is the fold of the first occurrences; retries change nothing |
| KvServer.StorageProjection | src/kvraft/server.go:119-125 | a key's value is the fold of the single-key specification over the first occurrences on it |
| KvServer.LastPutAndAppends | src/models/kv.go:43-56 | a key holds the value of its last put and then what was appended since |
| KvServer.IdTableHolds | src/kvraft/server.go:127-131 | the id table holds the latest log entry of every applied id |
| KvServer.AppliedKeyPresent | src/kvraft/server.go:82-90 | once a put or append is applied its key is present |
| KvServer.EffectIsStep | src/models/kv.go:43-56 | a first application is a step of the specification |
| KvCluster.ApplyNext | src/kvraft/server.go:111-135 | one message of the apply channel takes the object and the service one step further together |
| KvCluster.GetAnswers | src/kvraft/server.go:44-74 | whatever `Get` answers is an answer the service may give at that point |
| KvCluster.PutAppendAnswers | src/kvraft/server.go:76-104 | and so is the OK of `PutAppend` |
| KvCluster.NoIdClash | src/kvraft/server.go:82-90 | in every reachable state the handler's error branch is dead, because an id names one operation |
| KvCluster.StepKeeps | src/kvraft/client.go:40-97 | every step of clients, log and servers keeps each answer justified by a prefix of the log that holds the operation |
| KvHistory.SlotExists | src/kvraft/server.go:44-74 | every call of the history takes effect at one log entry that entered between its call and its return |
| KvHistory.WritesOfSlot | src/kvraft/server.go:117-131 | an entry is the effect of exactly one write of the history if it is a write's first copy, and of none otherwise |
| KvHistory.OrderReplays | src/kvraft/server.go:111-135 | replaying the effects entry by entry is legal and ends in what the replicas hold |
| KvHistory.CallIsShown | src/kvraft/client.go:40-97 | every call that returned, and every write whose operation was agreed on, is in the client-visible history as its client saw it |
| KvHistory.ShownIsCall | src/kvraft/client.go:40-97 | nothing else is in it |
| KvProgress.CallCanReturn | src/kvraft/client.go:40-97 | from every reachable state every open call can still return, by way of any server |
| KvProgress.CrashForgets | src/kvraft/server.go:178-189 | a crash takes from a server all that it had applied and nothing else from the service |
| KvHistory.ServiceLinearizable | src/kvraft/server.go:44-135 | the client-visible history is linearizable for the store |
| KvHistory.RunsLinearizable | src/kvraft/client.go:40-97 | in every state of every run, retries and crashes included |
| KvHistory.CheckService | src/porcupine/porcupine.go:5-8 | without a timeout the linearizability checker answers Ok for every history the service can produce |

## Left out

- Checker.CheckSingle: recorded orders are values rather than pointers, which the search never distinguishes since it
  enters no configuration twice.
- Checker.CheckSingle: the kill flag is a function from polls to readings instead of an atomic variable.
- Parallel.CheckParallel: goroutines and channels are replaced by the order of arrival; it asks for at least one
  partition or a timeout, because with neither the source waits for a result that never comes (an empty history has
  no partition under `KvModel`).
- Events.CheckEvents: asks for histories in which every id is called once and returns once later, as an unmatched event
  has no meaning in the source (a call without a return is scanned as if it were one).
- Verdict.CheckOperations: takes the partitions of the history; `NoPartition` is the single-element case.
- Sorting.Sort: is an insertion sort standing for the library sort; callers know only its contract.
- KvHistory.ServiceLinearizable: takes one agreed growing log and distinct ids as given. Leader Completeness and State
  Machine Safety of this Raft are not proved; they would need further assumptions, as a late append of the same term
  truncates, the new leader's rewritten term is not persisted at once, and a success reply is not checked against the
  term it was sent in.
- RaftLogs.RunInv: election timing, tickers, condition variables, channel buffering and liveness are
  nondeterministic steps; the waiting loops of `startAsCand` and `Start` are not modelled.
- RaftNode.Raft.HandleAppendEntries: the channels `ReceiveHB` and `BecomeFollwerFromLeader` only wake other
  goroutines and are not modelled.
- Backoff.StartOnePeerAppend: ends, like the source, when the leader no longer leads, but models no further round then;
  that regions which build an append find the server leading is one of the assumptions above.
- Client loops retry without bound until a server answers; only their effect, many copies of one operation in the log, is modelled.
- `src/labrpc`, `src/labgob`, JSON encodings, files and `src/raft/persister.go`: the network is steps, the persisted state a triple.
- HTML, JavaScript, description strings and JSON output of the visualization.
- Console interface, TCP and process start-up (`serverRun.go`, `clientRun.go`, `raftRun.go`, `src/runner`).
- Snapshots and log compaction: nothing in the source trims the log.
- Goroutine memory-model questions, such as the unlocked read of `needReturn` and slices that alias `rf.Log`.
