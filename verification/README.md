# dlm_controld: locks, deadlocks, membership

A Dafny model of the decision-making parts of dlm_controld, the daemon that runs
the distributed lock manager, with proofs about every run of them.

**POSIX locks** (`ranges`, `lock_table`, `lock_answers`, `plock_node`, `plock_resource`).
The byte-range engine is specified by a map from owner and byte to no, read or
write lock, and proved to compute it; offsets have a 64-bit type, so every bound the
engine computes is proved not to wrap. What each operation answers, queues and grants
is described byte by byte in `lock_answers`, without ranges. `plock_resource` is the
resource object with its lists edited in place; each of its methods is proved equal to
the function that specifies it.

**The ownership protocol** (`ownership`, `ownership_log`, `ownership_phases`,
`ownership_safety`, `ownership_theorems`, `ownership_results`, `checkpoint`). Nodes have
FIFO queues that feed one totally ordered log, and each node delivers the log at its own pace.
The central result is a serial history: the operations the owner executed, then
the replicated operations of the log. Every node's table and every result written
to a kernel is that history's. Checkpoints are exact at every point of the protocol.

**Deadlock detection** (`lock_records`, `wait_graph`, `trans_table`, `lock_waits`,
`deadlock`, `deadlock_cases`). Merging of lock records, the wait-for graph with its
growable arrays and counters, the reduction to a fixpoint, and the cancelling of
one transaction. The detector is a class; its loops keep their early exits.

**Membership changes** (`membership`, `gates`, `fencing`, `quorum_gate`, `node_history`,
`gate_cases`, `cluster`, `barrier`, `barrier_steps`, `start_barrier`, `barrier_case`,
`barrier_credit`, `barrier_progress`, `barrier_hang`, `barrier_added`, `lockspace_group`). One node's state
machine with its fencing and quorum gates, and any number of nodes on one log of
configuration changes and start messages. Nodes may leave and rejoin at will, and
changes may look alike. Safety and progress of the start barrier are separate matters:

- No node starts alone, provided none of the messages it has read since it joined is
  stale, that is, sent for a change the node was part of before it left, still under way
  when it rejoined, and like a change it has seen since. `barrier_case` is a run with such
  a message in which a node does start alone.
- A node that has heard from everyone starts, provided no older pending change looks like
  its current one. The search for a message's change runs from the oldest, so such a
  change takes every start for itself. `barrier_hang` is a run in which a node
  has read every start and waits on; it will until the next configuration change.

**Protocol versions** (`protocol`) and the **CRC** of group names (`crc`).

## Assumptions

- Allocation succeeds. Byte swaps are the identity. Every list is finite.
- Requests have start <= end, and `ex` is 0 or 1. A waiter keeps the request fields
  only. The flags of a new waiter and of an unpacked entry are zero; the source
  leaves them uninitialised (group/dlm_controld/plock.c:635-639).
- The ownership model has one resource, since messages name their resource and
  handlers touch no other. Ownership is on, membership is fixed during a run, and
  no drop messages are sent. An owner may relinquish an unused resource at any time.
- Lock modes are the eight that the compatibility matrix covers. Lock records are
  fresh in each detection cycle. Pointers to transactions are modelled by their ids,
  pointers to locks by resource and position.
- A change carries the log position of the configuration change it was made for, and
  a message its sender and change; no handler reads them. Fence-time queries succeed;
  a failed query for fencing in progress counts as in progress.
- The group service delivers one order of configuration changes and messages to all
  members, a member's messages in the order sent and none after it is reported gone,
  and it reports a node as joined only when it was not a member.

## Where code and comments disagree

- The comment at group/dlm_controld/deadlock.c:1428-1434 explains which lock carries
  `waitfor_trans` when several locks wait for one transaction. When one lock waits for
  several transactions only the last edge is kept (`DeadlockCases.TwoBlockersOutlive`),
  so the expectation at lines 1451-1452 that the cancelled transaction now has a zero
  count can fail (`DeadlockCases.TwoHoldersUnresolved`).
- The comment at group/dlm_controld/cpg.c:853-856 hopes that a message can be matched
  to its change by content. `BarrierCredit.CreditIffNoOlderAlike` says exactly for which
  messages it can, `Barrier.MatchIsExact` which of those credited to the current change
  are its own, and `BarrierHang.OlderChangeHangs` is a run in which it cannot.

## Model

| member | source | states |
|---|---|---|
| `Ranges.OverlapTypeMeaning` | group/dlm_controld/plock.c:317-381 | for overlapping ranges the type is 0 to 4 and says exactly which range contains which; -1 is never returned |
| `Ranges.LockRangeBytes` | group/dlm_controld/plock.c:452-563 | granting a range sets exactly the requested bytes of that owner to the requested mode; every other byte and owner keeps its mode |
| `Ranges.LockRangeWellFormed` | group/dlm_controld/plock.c:452-563 | granting keeps every range non-empty and the ranges of each owner disjoint |
| `Ranges.UnlockRangeBytes` | group/dlm_controld/plock.c:565-627 | unlocking clears exactly the requested bytes of that owner and nothing else |
| `Ranges.UnlockRangeWellFormed` | group/dlm_controld/plock.c:565-627 | unlocking keeps every range non-empty and the ranges of each owner disjoint |
| `Ranges.PurgeLocksBytes` | group/dlm_controld/plock.c:2072-2078 | purging a node clears every byte its owners hold, purging for unmount clears all, and no other byte changes |
| `Ranges.PurgeLocksWellFormed` | group/dlm_controld/plock.c:2072-2078 | purging keeps the ranges of each owner disjoint |
| `LockTable.FirstConflictFound` | group/dlm_controld/plock.c:404-425 | the lock reported is the first in the list that excludes the request |
| `LockTable.ConflictIsBlocked` | group/dlm_controld/plock.c:404-425 | the range test finds a conflict if and only if some requested byte is held by another owner in an excluding mode |
| `LockTable.ApplySound` | group/dlm_controld/plock.c:653-776 | one operation with its waiter pass keeps the table well formed and free of conflicts |
| `LockTable.RunsConflictFree` | group/dlm_controld/plock.c:653-719 | in every run of operations and purges from an empty resource no two owners hold overlapping ranges of which one is exclusive |
| `LockTable.AnsweredOnce` | group/dlm_controld/plock.c:643-734 | over every sequence of operations each submitted request has been answered exactly once or waits exactly once |
| `LockTable.DoWaitersKeepsOrder` | group/dlm_controld/plock.c:653-680 | the waiters left by a pass are in their old order |
| `LockTable.PassIsComplete` | group/dlm_controld/plock.c:653-680 | if no read waiter overlaps bytes its own owner holds or awaits exclusively, every waiter left by one pass really conflicts with the final table |
| `LockTable.DowngradeIsTheGap` | group/dlm_controld/plock.c:653-680 | whatever blocked waiters stand in front of a grantable request, one pass deals with all of them rightly, if and only if granting it downgrades no exclusive byte of its own owner |
| `LockTable.PassCanMissAWaiter` | group/dlm_controld/plock.c:653-680 | five operations from an empty resource after which the only waiter left conflicts with nothing |
| `LockTable.HoldEndsByOwner` | group/dlm_controld/plock.c:653-719 | over every run of operations an owner's hold on a byte ends or weakens only by its own unlock, its own read lock, or a queued read lock of its own being granted |
| `LockAnswers.ApplyMeets` | group/dlm_controld/plock.c:653-776 | every operation on a valid table meets a byte-level description: a blocked request without wait is answered -EAGAIN, one with wait is queued last, any other is answered 0 and gets exactly its bytes; an unlock is answered 0 and clears exactly its bytes; a query is answered 1 with the first excluding lock if and only if a byte is blocked; then each waiter in turn is granted if and only if no byte is blocked |
| `LockAnswers.MeetsDetermines` | group/dlm_controld/plock.c:653-776 | the description leaves no choice: two outcomes that meet it have the same answers in the same order, the same queue and the same bytes |
| `LockAnswers.PurgeMeets` | group/dlm_controld/plock.c:2062-2112 | a purge takes away exactly the node's bytes and waiters, all of them on unmount, keeps the order of the other waiters and then looks at each in turn |
| `LockAnswers.PurgeLeavesNothing` | group/dlm_controld/plock.c:2062-2112 | after the waiter pass of a purge the node holds and awaits nothing and was answered nothing, nobody does after an unmount, and requests of other nodes wait or are answered as often as before |
| `LockAnswers.PurgedStaysGone` | group/dlm_controld/plock.c:2058-2112 | it stays so over every run of operations of other nodes |
| `LockAnswers.PidsOfRequests` | group/dlm_controld/plock.c:452-627 | over every run, however ranges are cut up, a lock names an owner and a process that belong together in some request |
| `PlockNode.OwnAnswersCount` | group/dlm_controld/plock.c:653-734 | a node writes each result of its own requests exactly once and no result of another node's |
| `PlockNode.OwnAnswersAt` | group/dlm_controld/plock.c:653-734 | the results written are those at the positions of the node's own requests, in that order |
| `OwnershipSafety.NextInv` | group/dlm_controld/plock.c:788-1266 | every read, voluntary relinquish, broadcast and delivery keeps the invariant that relates each node's phase, its undelivered messages and the log |
| `OwnershipTheorems.RunInv` | group/dlm_controld/plock.c:788-1266 | that invariant holds in every state of every run with any number of nodes at their own delivery positions |
| `OwnershipTheorems.SingleOwner` | group/dlm_controld/plock.c:1067-1185 | in every reachable state at most one node takes itself for the owner |
| `OwnershipTheorems.NothingUnexpected` | group/dlm_controld/plock.c:788-1266 | no delivery takes a branch marked as one that should not happen, and every replicated operation finds the resource unowned on every node |
| `OwnershipTheorems.SerialHistory` | group/dlm_controld/plock.c:975-1185 | a node that has received own-0 holds the table of one serial history, the owner's operations and then the replicated ones, and has written exactly its own share of that history's results |
| `OwnershipTheorems.ReplicaAgreement` | group/dlm_controld/plock.c:1067-1266 | two nodes that have delivered the same log, own-0 included, hold identical lists of locks and waiters |
| `OwnershipTheorems.OwnerHistory` | group/dlm_controld/plock.c:1025-1051 | while a node is the owner its table and results are those of executing the local history from the empty table |
| `OwnershipTheorems.NoOpLostOrDoubled` | group/dlm_controld/plock.c:1025-1065 | every operation a node has read is, in order, executed here as owner, or sent once, or pending |
| `OwnershipTheorems.NothingStuck` | group/dlm_controld/plock.c:955-973 | when all messages are delivered no operation is pending, although no second own message is sent while operations are pending |
| `OwnershipResults.EveryOpHasOneResult` | group/dlm_controld/plock.c:643-1266 | in every run each operation a node has read is pending, on its way, waiting in the node's table, or answered by exactly one result written to its own kernel, and no result is written for another node's request |
| `OwnershipResults.AtRestAnswered` | group/dlm_controld/plock.c:643-1266 | when all messages are delivered every operation read waits or has its one result |
| `OwnershipResults.OwnerCanGiveUp` | group/dlm_controld/plock.c:1346-1378 | in every run an owner with no lock and no waiter can give the resource up, holding it for unowned and telling everyone |
| `OwnershipTheorems.SerialOpsWereRead` | group/dlm_controld/plock.c:1414-1508 | every operation of the serial history was read by some node |
| `OwnershipTheorems.ClusterMutualExclusion` | group/dlm_controld/plock.c:653-719 | the table of every node that can grant a lock has no two owners, of whatever nodes, with overlapping ranges of which one is exclusive |
| `OwnershipTheorems.ConflictMeansReleased` | group/dlm_controld/plock.c:653-719 | if a key's hold at a node that is behind in the log excludes another key's hold at a node ahead, the log between them holds an unlock or read lock of that byte by the first key, or leads to a queued read lock of it being granted |
| `Checkpoint.PackRoundTrip` | group/dlm_controld/plock.c:1554-1654 | packing and unpacking a resource keeps exactly the locks and waiters that are not being synced, in order, and nothing when the writer is the owner |
| `Checkpoint.CheckpointExact` | group/dlm_controld/plock.c:1868-1907 | the checkpoint a full member writes, also as owner or half way through its sync messages, unpacks to exactly the owner and table the log says at its position |
| `Checkpoint.ListenersMatch` | group/dlm_controld/plock.c:1067-1266 | a full member that is not the owner has exactly the owner and table the log says |
| `Checkpoint.ReplayFollows` | group/dlm_controld/plock.c:1510-1544 | replaying saved messages from a state that agrees with the log leads to a state that agrees with the longer log |
| `Checkpoint.CatchUp` | group/dlm_controld/plock.c:1510-1654 | a joiner that reads a member's checkpoint and replays its saved messages has the same owner and table as any non-owner member at that later position |
| `Checkpoint.RewriteNeedsGotUnown` | group/dlm_controld/plock.c:1885-1888 | a node that follows the log writes a correct checkpoint if and only if the resource is not unowned or the node has the got-unown flag, which a checkpoint does not restore |
| `Checkpoint.JoinerRewrite` | group/dlm_controld/plock.c:1598-1654 | in every run a joiner that has caught up would itself write a correct checkpoint if and only if the resource is not unowned, or was not yet when the checkpoint it joined from was written |
| `PlockResource.Resource.constructor` | group/dlm_controld/plock.c:247-286 | a resource nobody has touched: owner unknown, no locks, waiters or pending operations |
| `PlockResource.Resource.FindConflict` | group/dlm_controld/plock.c:404-425 | returns the first excluding lock of another owner, or none |
| `PlockResource.Resource.LockInternal` | group/dlm_controld/plock.c:502-563 | the in-place loop with its early exits leaves exactly the list of LockRange; no shrink fails and no overlap is unclassified, so the result is always 0 |
| `PlockResource.Resource.ConvertAndAdd` | group/dlm_controld/plock.c:452-472 | on a partial inner overlap the lock is cut to the request in its mode and the remainder appended in the other mode; the shrink cannot fail |
| `PlockResource.Resource.SplitInThree` | group/dlm_controld/plock.c:479-500 | a request strictly inside a lock leaves the request in place and both remainders at the end |
| `PlockResource.Resource.UnlockInternal` | group/dlm_controld/plock.c:565-627 | the in-place loop leaves exactly the list of UnlockRange, and the result is always 0 |
| `PlockResource.Resource.GrantWaiters` | group/dlm_controld/plock.c:653-680 | the pass over the waiter list grants, removes and answers exactly as DoWaiters |
| `PlockResource.Resource.LockOp` | group/dlm_controld/plock.c:682-705 | lock, wait or refuse with EAGAIN, then one waiter pass; results are written for our own requests only |
| `PlockResource.Resource.UnlockOp` | group/dlm_controld/plock.c:707-719 | unlock, answer, then one waiter pass |
| `PlockResource.Resource.Execute` | group/dlm_controld/plock.c:756-776 | table and results after one operation are those of Apply, unknown operations included |
| `PlockResource.Resource.PurgePlocks` | group/dlm_controld/plock.c:2062-2112 | the node's locks and waiters go, its ownership becomes unowned with pending operations sent, and what can be granted is granted |
| `PlockResource.Resource.SendSyncs` | group/dlm_controld/plock.c:975-1010 | every lock and then every waiter is sent once, in order, and flagged as being synced |
| `PlockResource.Resource.AddPendingPlocks` | group/dlm_controld/plock.c:1042-1051 | pending operations are executed in order and leave the pending list |
| `PlockResource.Resource.SendPendingPlocks` | group/dlm_controld/plock.c:1056-1065 | pending operations are sent in order and leave the pending list |
| `PlockResource.Resource.ProcessPlocks` | group/dlm_controld/plock.c:1414-1508 | an operation from the kernel is sent, executed or kept pending depending on the owner, as ProcessPlock says |
| `PlockResource.Resource.ReceivePlockMsg` | group/dlm_controld/plock.c:788-906 | state, messages and results after a replicated operation, and whether an unexpected branch was taken, are those of ReceivePlock |
| `PlockResource.Resource.ReceiveOwnMsg` | group/dlm_controld/plock.c:1067-1185 | the full case analysis of own messages, early relinquish included, is that of ReceiveOwn |
| `PlockResource.Resource.ClearSyncingFlag` | group/dlm_controld/plock.c:1197-1232 | the first flagged lock, else the first flagged waiter, with these fields loses its flag; otherwise the branch is unexpected |
| `PlockResource.Resource.ReceiveSyncMsg` | group/dlm_controld/plock.c:1234-1266 | our own sync message clears a flag, another node's adds a lock or waiter |
| `PlockResource.Resource.GiveUpUnused` | group/dlm_controld/plock.c:1346-1378 | ownership of a resource with no locks and waiters is given up, and only of such a resource |
| `PlockResource.Resource.PackSection` | group/dlm_controld/plock.c:1554-1596 | the packed entries are those of Pack |
| `PlockResource.Resource.FromSection` | group/dlm_controld/plock.c:1598-1654 | the rebuilt resource is that of Unpack: got-unown unset, lists in order |
| `LockRecords.HalvesMeet` | group/dlm_controld/deadlock.c:209-227 | what holder and master report of one lock become two records with the same node and lock id that agree on the remote id |
| `LockRecords.ReportsValid` | group/dlm_controld/deadlock.c:209-227 | whatever a node reports becomes a valid record, local exactly when the lock is mastered where it is held, with transaction, status and modes untouched |
| `LockRecords.AddAllRepresents` | group/dlm_controld/deadlock.c:254-315 | with at most one real and one partial record per master lock, agreeing on the remote id, the merged list holds each master lock once, fully merged, and each local lock as often as it was reported |
| `LockRecords.MergeOrderIndependent` | group/dlm_controld/deadlock.c:254-315 | with at most one real and one partial record per master lock, every order of the records gives the same merged locks, each as often, if and only if the two halves of each lock agree on the remote id |
| `LockRecords.MergedComplete` | group/dlm_controld/deadlock.c:254-315 | a lock whose two agreeing halves have arrived is complete: the transaction from the partial half, the rest from the real one |
| `WaitGraph.ResidueUnique` | group/dlm_controld/deadlock.c:1317-1397 | the largest closed set is unique, so the order of the list cannot matter |
| `WaitGraph.ResidueEmptyIffAcyclic` | group/dlm_controld/deadlock.c:1317-1397 | the largest set in which every transaction waits for a member is empty if and only if there is no cycle of waits |
| `WaitGraph.NoCycleWithout` | group/dlm_controld/deadlock.c:1411-1460 | dropping some of a transaction's waits leaves no cycle if and only if every cycle used one of them |
| `TransTable.AddEdgeSound` | group/dlm_controld/deadlock.c:1236-1283 | adding an edge keeps every count equal to the used slots, every others count equal to the in-degree, and all slots distinct |
| `TransTable.DropEdgeSound` | group/dlm_controld/deadlock.c:1324-1341 | emptying a slot keeps the counters sound and takes exactly that edge out |
| `TransTable.DropTransSound` | group/dlm_controld/deadlock.c:1364-1386 | deleting a transaction keeps the counters sound when it waits for no one and its others count is zero, which implies that no one waits for it |
| `LockWaits.CompatMeaning` | group/dlm_controld/deadlock.c:83-98 | for all modes the matrix says yes exactly when each mode lets others do what the other mode may do, and neither is the invalid one |
| `LockWaits.WaitsOnMeaning` | group/dlm_controld/deadlock.c:1205-1222 | a waiting or converting lock waits on a held or converting one of another transaction on the same resource exactly when the mode asked for and the mode held do not go together in that sense |
| `LockWaits.NewestFirst` | group/dlm_controld/deadlock.c:1156-1203 | transactions are listed in the reverse order of their first locks, by resource and then by place on its list |
| `LockWaits.WaitsOfExact` | group/dlm_controld/deadlock.c:1289-1315 | the waits collected for t contain u if and only if t has a lock that is not granted and is blocked, in an incompatible mode on the same resource, by a lock of u other than t that is not waiting |
| `LockWaits.WaitForExact` | group/dlm_controld/deadlock.c:1289-1315 | the same for the whole graph: no edge is missing, none is spurious, none is from a transaction to itself |
| `LockWaits.RememberedIsTracked` | group/dlm_controld/deadlock.c:1280-1282 | the transactions in waitfor_trans of the waiting locks are exactly the last ones each lock added |
| `LockWaits.AllTrackedIff` | group/dlm_controld/deadlock.c:1280-1282 | all edges of a transaction are remembered by its locks if and only if no lock added two |
| `LockWaits.AddsAtMostOneIff` | group/dlm_controld/deadlock.c:1289-1315 | a lock adds at most one edge if and only if at most one transaction blocks it that blocks no lock of the same transaction further on in the lock table |
| `LockWaits.OneBlockerTracked` | group/dlm_controld/deadlock.c:1424-1442 | they are when each waiting lock is blocked by at most one other transaction |
| `Deadlock.VictimExists` | group/dlm_controld/deadlock.c:1399-1409 | where every listed transaction waits for another, a victim is found |
| `Deadlock.VictimMeaning` | group/dlm_controld/deadlock.c:1399-1409 | the victim is the first in list order that another deadlocked transaction waits for |
| `Deadlock.CutVerdict` | group/dlm_controld/deadlock.c:1508-1546 | after cutting the victim's remembered edges the list ends up empty if and only if no cycle is left |
| `Deadlock.Detector.AddLock` | group/dlm_controld/deadlock.c:238-315 | the search and the update of the lock list give exactly AddRecord |
| `Deadlock.Detector.GetTrans` | group/dlm_controld/deadlock.c:1156-1179 | a transaction is found or put at the head of the list, never listed twice |
| `Deadlock.Detector.CollectResource` | group/dlm_controld/deadlock.c:1189-1198 | one resource's locks are collected on top of those before |
| `Deadlock.Detector.CreateTransList` | group/dlm_controld/deadlock.c:1183-1203 | afterwards the list is TransOrder, and each transaction has exactly its own locks, newest first, with no edges |
| `Deadlock.Detector.InWaitfor` | group/dlm_controld/deadlock.c:1223-1234 | true if and only if some slot in use names the transaction |
| `Deadlock.Detector.GrowWaitfor` | group/dlm_controld/deadlock.c:1263-1278 | four free slots are appended, the old ones are kept and the counters stay sound |
| `Deadlock.Detector.AddWaitfor` | group/dlm_controld/deadlock.c:1236-1283 | an edge is added once, exactly when the granted lock blocks the waiting one; the lock remembers it; the counters stay sound |
| `Deadlock.Detector.LinkLock` | group/dlm_controld/deadlock.c:1299-1310 | the array is extended by exactly the new blockers of this lock, in order |
| `Deadlock.Detector.LinkTrans` | group/dlm_controld/deadlock.c:1295-1312 | after all locks of a transaction its array is exactly WaitsOf |
| `Deadlock.Detector.CreateWaitforGraph` | group/dlm_controld/deadlock.c:1289-1315 | afterwards every transaction is fully linked and the counters are sound |
| `Deadlock.Detector.RemoveWaitfor` | group/dlm_controld/deadlock.c:1324-1341 | exactly the one edge goes, in spite of the early break on a zero count, and the counters stay sound |
| `Deadlock.Detector.RemoveTrans` | group/dlm_controld/deadlock.c:1346-1362 | no one waits for the transaction any more, in spite of the early break on a zero others count; every other edge is kept |
| `Deadlock.Detector.ReduceWaitforGraph` | group/dlm_controld/deadlock.c:1364-1386 | one pass deletes every transaction that waited for no one, keeps the largest closed set and the list order, and reports how many it deleted |
| `Deadlock.Detector.ReduceWaitforGraphLoop` | group/dlm_controld/deadlock.c:1388-1397 | the loop ends, and leaves exactly the largest set in which every transaction waits for another member, in list order |
| `Deadlock.Detector.FindTransToCancel` | group/dlm_controld/deadlock.c:1399-1409 | returns the first listed transaction with a non-zero others count, or none |
| `Deadlock.Detector.CancelLocks` | group/dlm_controld/deadlock.c:1424-1442 | the waiting locks are cancelled in order and exactly the remembered edges go |
| `Deadlock.Detector.CancelTrans` | group/dlm_controld/deadlock.c:1411-1460 | what is left is the residue of the graph without the remembered edges, and the victim itself is gone if and only if all its remaining edges were remembered |
| `Deadlock.Detector.BuildGraph` | group/dlm_controld/deadlock.c:1520-1522 | the graph built from the locks is the wait-for relation of the lock table |
| `Deadlock.Detector.ResolveDeadlock` | group/dlm_controld/deadlock.c:1534-1543 | the deadlock is reported resolved if and only if cutting the victim's remembered edges breaks every cycle |
| `Deadlock.Detector.FindDeadlock` | group/dlm_controld/deadlock.c:1508-1546 | reports no deadlock if and only if the wait-for relation has no cycle; otherwise names the victim, the cancelled locks, and resolved or failed as above |
| `DeadlockCases.CutIsCompleteIff` | group/dlm_controld/deadlock.c:1424-1442 | the cut frees the victim of all it waits for if and only if each of its locks is blocked by at most one transaction that blocks none of its locks further on in the table |
| `DeadlockCases.OneBlockerCutsAll` | group/dlm_controld/deadlock.c:1424-1442 | with one blocking transaction per waiting lock the cut is complete, and it resolves the deadlock if and only if every cycle passes through the victim |
| `DeadlockCases.TwoBlockersOutlive` | group/dlm_controld/deadlock.c:1280-1282 | a transaction whose one waiting lock is blocked by two others keeps the first of the two edges |
| `DeadlockCases.TwoHoldersUnresolved` | group/dlm_controld/deadlock.c:1444-1459 | a lock table whose deadlock is not resolved whichever transaction is cancelled |
| `DeadlockCases.CrossingIff` | group/dlm_controld/deadlock.c:1289-1315 | in whatever modes two transactions each hold what the other wants, the graph has a cycle if and only if neither mode held goes together with the mode wanted |
| `DeadlockCases.VictimOffCycle` | group/dlm_controld/deadlock.c:1399-1409 | a lock table with a deadlock whose victim can only be a transaction on no cycle, so that the deadlock is never reported resolved |
| `Gates.StepGates` | group/dlm_controld/cpg.c:1137-1337 | every callback with a well-formed change keeps: pending changes imply a stopped kernel, and no flag is left while start messages are awaited; the kernel is never found running |
| `Gates.RunGates` | group/dlm_controld/cpg.c:1137-1337 | over every run from a fresh lockspace the same, and every step is safe: no start finds the kernel running, and none leaves a node waiting for fencing or quorum |
| `GateCases.RefusedChangeStarts` | group/dlm_controld/cpg.c:1237-1243 | a run with a change that names a joined node outside its members: it is refused half way, and the kernel starts with a failed node still to be fenced |
| `Gates.RemergeIgnored` | group/dlm_controld/cpg.c:925-943 | a node that has started before and is being added again, unreset, gets neither a start mark nor a new add time from its start message |
| `Fencing.PendingUntilFenced` | group/dlm_controld/cpg.c:395-488 | from its failure on, a node stays to be fenced until a fence time later than its add time has been reported |
| `Fencing.FencedBeforeStart` | group/dlm_controld/cpg.c:395-488 | a node that fails with a non-zero add time is reported fenced later than that before the kernel starts again, given a monotone clock and no normal leave in between |
| `Fencing.FencedAfterRecorded` | group/dlm_controld/cpg.c:395-488 | whoever leaves in between and whatever the clock does, before the kernel starts again the failed node, still waiting, is reported fenced later than the add time on record at that moment |
| `QuorumGate.NoticedBeforeStart` | group/dlm_controld/cpg.c:395-527 | with quorum and without fencing, a node on record that fails is no longer a member for the quorum service at some event before the kernel starts again |
| `QuorumGate.RunSendsWhenClear` | group/dlm_controld/cpg.c:425-527 | in every run a node says start only in an event that finds the cluster quorate, if quorum is on, and no fencing under way, if fencing is on |
| `QuorumGate.StartGoesBack` | group/dlm_controld/cpg.c:649-700 | every start of the kernel goes back to such an event since the last configuration change |
| `NodeHistory.SendsExactlyWhen` | group/dlm_controld/cpg.c:425-678 | a node says start if and only if its current change waits for conditions, every node flagged has been fenced later than added or left the quorum service's members, nothing is being fenced and the cluster is quorate, as far as the settings ask |
| `NodeHistory.OnRecordIff` | group/dlm_controld/cpg.c:346-365 | in every run exactly those nodes are on record that have joined us or were there when we joined |
| `NodeHistory.MetIsNoticed` | group/dlm_controld/cpg.c:395-527 | hence every such node that fails is noticed by the quorum service before the kernel starts again |
| `NodeHistory.FencedOnceCounted` | group/dlm_controld/cpg.c:367-488 | a node on record whose start counted at a non-zero time, and that fails without having left, is reported fenced later than that start before the kernel starts again |
| `NodeHistory.RecordHasCause` | group/dlm_controld/cpg.c:346-488 | in every run a node waits for another to be fenced only with fencing on and if a start of the other still counted when it failed, and for the quorum service only with quorum on, fencing off and a failure; an add time is that of a start that counted, since which the node has neither left normally nor been fenced |
| `NodeHistory.CountIsStarts` | group/dlm_controld/cpg.c:702-723 | the count in a node's start messages is the number of its starts in 32 bits, never again zero |
| `NodeHistory.RunsIff` | group/dlm_controld/cpg.c:702-723 | in every run the kernel runs exactly when it has been started and no change is pending |
| `GateCases.LeaveForgets` | group/dlm_controld/cpg.c:380-393 | a run that meets every other hypothesis, with a normal leave in between: the kernel starts although no fence later than the add time was ever reported |
| `Cluster.MatchForcesSameMembers` | group/dlm_controld/cpg.c:815-845 | equal counts and one-way inclusion of the member lists force equal member sets |
| `Barrier.LaterIsNewer` | group/dlm_controld/cpg.c:984-1047 | the start messages a node is heard with, even across leaving and rejoining, are about newer and newer changes |
| `Barrier.NotStale` | group/dlm_controld/cpg.c:702-723 | a message still to be delivered is about a change before its reader joined, or one its reader has not started past |
| `Barrier.CreditIffPending` | group/dlm_controld/cpg.c:872-885 | in every reachable state, a message credited to the current change is about it if and only if it is about a change not yet done with |
| `Barrier.MatchIsExact` | group/dlm_controld/cpg.c:853-885 | of the messages credited to the current change, exactly those that are not stale were sent for it; stale means sent for a change before the reader rejoined, of which it was part, that looks like one it has seen since |
| `StartBarrier.NextKeepsInv` | group/dlm_controld/cpg.c:900-1337 | every step of the cluster keeps the invariant between the log, each node's pending changes and its messages, whatever the changes look like |
| `StartBarrier.RunInv` | group/dlm_controld/cpg.c:900-1337 | that invariant holds in every state of every run |
| `StartBarrier.RunEvidence` | group/dlm_controld/cpg.c:900-943 | a node that has read no stale message since it joined owes every start mark of its current change, and every member of its last started one, to a message sent for that change |
| `StartBarrier.WasSent` | group/dlm_controld/cpg.c:984-1052 | every start message around was sent in an earlier step by a node standing at the change it is about, stopped, conditions met |
| `StartBarrier.NoneStartsAlone` | group/dlm_controld/cpg.c:680-943 | when a node that has read no stale message since it joined starts its kernel for a change, every member had already sent start with that very change at the head of its list, its kernel stopped and its conditions met |
| `BarrierCase.RejoinBreaksBarrier` | group/dlm_controld/cpg.c:853-943 | a run of eleven steps in which a node rejoins, reads one stale message and starts its kernel for a change at which the other member has never stood |
| `StartBarrier.MatchIffLookalike` | group/dlm_controld/cpg.c:789-851 | a start message matches a change if and only if that change has the same counts and members as its own, names us, and has the sender as a member |
| `BarrierCredit.PendingMatches` | group/dlm_controld/cpg.c:789-851 | in every reachable state, a pending change matches a start message of the log if and only if it looks like the change the message is about |
| `BarrierCredit.CreditIffNoOlderAlike` | group/dlm_controld/cpg.c:853-885 | every start message is credited to the pending change it is about, or to none if that is not pending, if and only if no older pending change, in the second case no pending change, looks like that change |
| `BarrierCredit.OlderAlikeTakesAll` | group/dlm_controld/cpg.c:872-885 | if an older pending change looks like the current one, no message whatever is credited to the current one |
| `BarrierProgress.MarksStep` | group/dlm_controld/cpg.c:900-1337 | every step of the cluster keeps: the current change shows a mark for each start about it that was read, or no start mark at all if an older pending change looks like it |
| `BarrierProgress.RunMarks` | group/dlm_controld/cpg.c:900-1337 | the same in every state of every run |
| `BarrierProgress.RunRefused` | group/dlm_controld/cpg.c:925-943 | a node that has read no stale message has both marks for no member, since each member speaks once about a change, and owes every refusal to that one message |
| `BarrierAdded.AddedIffJoins` | group/dlm_controld/cpg.c:887-898 | in every run the test for a node being added says exactly that a pending change reports it as joined |
| `BarrierAdded.RefusedIff` | group/dlm_controld/cpg.c:900-943 | a start that matches a pending change is refused if and only if its sender has started before and a pending change reports it as joined; otherwise the sender is marked and its add time set |
| `BarrierProgress.AllHeardStarts` | group/dlm_controld/cpg.c:680-943 | progress in every run: a node waiting for messages that has read a start about its current change from every member, none refused, starts in that very step if no older pending change looks like it |
| `BarrierProgress.OlderAlikeHolds` | group/dlm_controld/cpg.c:872-943 | a step after which an older pending change looks like the current one does not start the kernel |
| `BarrierProgress.StartsExactlyWhen` | group/dlm_controld/cpg.c:680-943 | in every run, a node that has read no stale message starts its current change if and only if it waits for messages, has read every member's start about that change and refused none, and no older pending change looks like it |
| `BarrierProgress.HeldUpUntilReconfigured` | group/dlm_controld/cpg.c:872-943 | a node whose current change looks like an older pending one keeps its pending changes and starts nothing, whatever it reads, until the next configuration change |
| `BarrierHang.OlderChangeHangs` | group/dlm_controld/cpg.c:853-943 | a run of fifteen steps without stale or refused messages that ends with every message read, one member started and the other waiting on whatever it polls, both starts credited to an older change that looks like the current one |
| `LockspaceGroup.Group.constructor` | group/dlm_controld/cpg.c:1508-1521 | a fresh lockspace with a stopped kernel |
| `LockspaceGroup.Group.NodeHistoryInit` | group/dlm_controld/cpg.c:346-365 | the node has an entry, an existing one is untouched |
| `LockspaceGroup.Group.NodeHistoryStart` | group/dlm_controld/cpg.c:367-378 | the add time becomes now, if the node has an entry |
| `LockspaceGroup.Group.NodeHistoryLeft` | group/dlm_controld/cpg.c:380-393 | the add time becomes zero, the flags stay |
| `LockspaceGroup.Group.NodeHistoryFail` | group/dlm_controld/cpg.c:395-423 | the fencing flag is raised for a non-zero add time, the quorum flag without fencing; neither is ever lowered |
| `LockspaceGroup.Group.CheckFencingDone` | group/dlm_controld/cpg.c:425-488 | exactly the entries fenced later than added are cleared; done if and only if no flag is left and no fencing is under way |
| `LockspaceGroup.Group.CheckQuorumDone` | group/dlm_controld/cpg.c:490-527 | exactly the entries gone from the cluster are cleared; done if and only if none is left and the cluster is quorate |
| `LockspaceGroup.Group.ConditionsDone` | group/dlm_controld/cpg.c:649-678 | fencing first, quorum only after it |
| `LockspaceGroup.Group.WaitMessagesDone` | group/dlm_controld/cpg.c:680-700 | true if and only if every member has started |
| `LockspaceGroup.Group.Matches` | group/dlm_controld/cpg.c:789-851 | the two scans and the counts decide exactly MatchChange |
| `LockspaceGroup.Group.Find` | group/dlm_controld/cpg.c:872-885 | the oldest matching change, or none |
| `LockspaceGroup.Group.Added` | group/dlm_controld/cpg.c:887-898 | true if and only if some pending change added the node |
| `LockspaceGroup.Group.ReceiveStartMsg` | group/dlm_controld/cpg.c:900-943 | the member is marked started and its add time set, or disallowed when a node being added has started before |
| `LockspaceGroup.Group.CleanupChanges` | group/dlm_controld/cpg.c:702-723 | the newest change becomes the started one, all are dropped, the 32-bit count skips zero |
| `LockspaceGroup.Group.Apply` | group/dlm_controld/cpg.c:1137-1165 | state and output are those of ApplyChanges, the refused start included |
| `LockspaceGroup.Group.NewChange` | group/dlm_controld/cpg.c:1177-1275 | history, counts, added marks and the error return are those of AddChange |
| `LockspaceGroup.Group.ConfchgCb` | group/dlm_controld/cpg.c:1288-1337 | the whole callback is one Confchg step |
| `LockspaceGroup.Group.DeliverCb` | group/dlm_controld/cpg.c:1352-1434 | the delivery of a start message is one Start step |
| `LockspaceGroup.Group.ProcessChanges` | group/dlm_controld/cpg.c:1167-1175 | a poll is one Tick step |
| `Protocol.RunningMinIsMin` | group/dlm_controld/cpg.c:1683-1700 | a running minimum that treats zero as unset finds the minimum when no value is zero |
| `Protocol.PickMinIsLexMin` | group/dlm_controld/cpg.c:1670-1753 | choosing major, then minor, then patch finds the lexicographic minimum of the announced versions and no zero field, provided none was announced |
| `Protocol.LexMinUnique` | group/dlm_controld/cpg.c:1670-1753 | the minimum depends only on which versions are announced, not on their order |
| `Protocol.ZeroDependsOnOrder` | group/dlm_controld/cpg.c:1670-1753 | the choice between two announcements depends on their order if and only if one has a zero in the first field in which they differ |
| `Protocol.FirstProposalWins` | group/dlm_controld/cpg.c:1755-1816 | a daemon with no run values ends up with those of the first acceptable proposal delivered, or none, so equal deliveries mean equal versions |
| `Protocol.AdoptedIsSet` | group/dlm_controld/cpg.c:1755-1816 | run values, once adopted, have no zero field |
| `Protocol.Daemon.AddNodeDaemon` | group/dlm_controld/cpg.c:1596-1611 | a new node is added with blank versions, a known one is untouched |
| `Protocol.Daemon.ReceiveProtocol` | group/dlm_controld/cpg.c:1755-1816 | run values are adopted at most once, and only a message without zero maxima is ever stored |
| `Protocol.Daemon.AllProtocolMessages` | group/dlm_controld/cpg.c:1648-1668 | true if and only if there are members and each is known with its maximum set |
| `Protocol.Daemon.MinMajors` | group/dlm_controld/cpg.c:1680-1704 | the first loop: an unknown member is an error, otherwise the running minima of the majors |
| `Protocol.Daemon.MinMinors` | group/dlm_controld/cpg.c:1706-1724 | the second loop: the running minima of the minors that go with the chosen majors |
| `Protocol.Daemon.MinPatches` | group/dlm_controld/cpg.c:1731-1745 | the third loop: the running minima of the patches that go with the chosen majors and minors |
| `Protocol.Daemon.PickMinProtocol` | group/dlm_controld/cpg.c:1670-1753 | on any table: an error for an unknown member or a zero field, otherwise both chosen versions |
| `Protocol.Daemon.Propose` | group/dlm_controld/cpg.c:1860-1881 | once every member has announced itself the choice succeeds, and each version is the lexicographic minimum over all members |
| `Crc.TableEntries` | group/dlm_controld/crc.c:3-36 | each of the 256 entries is the remainder of its index after eight bit steps |
| `Crc.Steps8Linear` | group/dlm_controld/crc.c:3-36 | eight bit steps are linear over exclusive or |
| `Crc.RoundIsSteps` | group/dlm_controld/crc.c:65-66 | one round of the table loop equals eight bit steps on the hash with the byte mixed in |
| `Crc.CpgnameToCrc` | group/dlm_controld/crc.c:61-71 | for every byte string the loop returns the bit-at-a-time reflected CRC-32 with initial and final complement |
| `Crc.NeighboursDiffer` | group/dlm_controld/crc.c:61-71 | names of equal length that differ only within four neighbouring bytes have different values |

## Left out

- Drop messages and the change of owner in purge_plocks as part of the ownership protocol: a stale drop can cross an early relinquish, and the source says that transition was not worked out. `PlockResource.Resource.PurgePlocks` models purge on one resource.
- Ownership switched off, the freeing of unused resources it brings, and checkpoints reused because nothing changed since the last one.
- PlockResource.Resource.ProcessPlocks: one operation per call; the device, rate limiting and the periodic drop of unused resources around it are not modelled.
- PlockResource.Resource.GiveUpUnused: the minimum idle time and the count limit of drop_resources are not modelled; the protocol proofs allow it at any time.
- Checkpoint.CatchUp: the joiner is not yet a member of the run it catches up with; its later life as a member is not modelled.
- Deadlock.Detector.AddLock: works on the resource it is given; looking resources up by name is not modelled.
- Deadlock.Detector.CancelTrans: the cancelled locks are returned in order; sending and carrying out the cancel messages is not modelled.
- Reading lock records from debugfs and checkpoints, the start and end of detection cycles, and purge_locks.
- Fencing.FencedBeforeStart: one direction only, since a fence report may come whether or not it is waited for; `GateCases.LeaveForgets` shows that the hypothesis about leaving is needed, and `Fencing.FencedAfterRecorded` is the bound that needs neither it nor the clock.
- The condition on the local file system in wait_conditions_done: its notified flag is never reset, so it holds back nothing after the first failure.
- Choosing the checkpoint node, the saving of messages while joining, renewed member ids, and the final callback of a leaving node.
- The retry loop around `Protocol.Daemon.Propose` and the flags field of versions.
- Crc.TableEntries: the table is kept in sixteen rows of sixteen entries; entry i is column i mod 16 of row i div 16.
- The kernel and socket wrappers (libdlm, libaislock, libdlmcontrol, dlm_tool), configuration, logging, queries and dump buffers, which would only add easy members.
