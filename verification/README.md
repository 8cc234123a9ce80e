# Verified models of RIOT and QSemOS kernel code

This project models the concurrency core of two small operating systems, RIOT and QSemOS, together with some of
their data structures and codecs, and proves properties of the models over all inputs and all runs.

Every region that the code runs with interrupts disabled or a lock held is one atomic step. For each kernel object
there is a state type, one function per region that maps a state to the next one, a state machine whose runs are
all interleavings of such steps, an invariant, and main theorems about every state of every run. Beside it a class
rewrites the same state in place with the loops and branches of the code, and each of its methods is proved to
leave exactly the state the function describes, or to have the effect that is proved of that function. What the functions
do is stated once more without naming them, in the `Effects` files: every answer with its exact condition on the fields and lists before the call, and what the call
changes and leaves alone.

| part | files |
|---|---|
| Lists in order of urgency, shared by both kernels | `PrioList.dfy` |
| QSemOS semaphores with priority inheritance | `SemSystem.dfy`, `SemInvariant.dfy`, `SemEffects.dfy`, `SemLedger.dfy`, `SemKernel.dfy` |
| RIOT kernel: scheduler, mutex, condition, messages, flags | `Bitcache.dfy`, `RiotSystem.dfy`, `RiotLists.dfy`, `RiotInvariant.dfy`, `RiotSteps.dfy`, `RiotRuns.dfy`, `RiotKernel.dfy` |
| What RIOT calls do to threads, run queues and messages | `RiotEffects.dfy`, `RiotQueues.dfy` |
| What RIOT runs guarantee | `RiotMutex.dfy`, `RiotMessages.dfy`, `RiotMailbox.dfy`, `RiotOrder.dfy`, `RiotFlags.dfy`, `RiotSched.dfy` |
| Small runs from boot, for the lemmas that show a run | `RiotBoot.dfy` |
| RIOT pointer lists and index buffer | `Clist.dfy`, `Cib.dfy` |
| QSemOS message queue | `MsgQueue.dfy`, `MsgQueueEffects.dfy`, `MsgQueueCb.dfy` |
| QSemOS read/write lock | `RwLock.dfy`, `RwLockEffects.dfy`, `RwLockCb.dfy` |
| QSemOS log ring | `LogCount.dfy`, `LogRing.dfy`, `LogEffects.dfy`, `LogRuns.dfy`, `LogWorker.dfy` |
| QSemOS byte ring | `ByteRing.dfy`, `ByteRingCb.dfy` |
| RIOT IPv6 text and Internet checksum | `Ipv6Text.dfy`, `Ipv6Parse.dfy`, `Ipv6Code.dfy`, `Checksum.dfy` |
| Rings, remainders and optional values used by several parts | `Ring.dfy`, `Modulo.dfy`, `Options.dfy` |

## Assumptions

- Semaphores: waits are not cut short by a timer and tasks are not deleted. Mutexes are those of `PRT_SemMutexCreate`:
  recursive, in priority mode. The nesting counter is taken to be 32 bits wide. The limit of a counting semaphore, the
  lowest priority and the value that means waiting forever come from a header that is not part of this model and are
  left as arbitrary constants. Suspension, resumption and delays of tasks are environment steps.
- A thread or task that waits in a list keeps its priority, except through the code modelled here. In RIOT this is the
  condition under which `SetPriority` is enabled, in the read/write lock likewise.
- RIOT: messages and thread flags are configured in, mutex priority inheritance and debugging are not. Yields and the
  switch request of an interrupt are scheduler steps that may come at any time. Replies go only to threads whose
  request has been received, and `msg_init_queue` is called only while nobody waits to send; lemmas show why the first
  is needed. A mutex is released by its holder only. `cond_wait` calls `mutex_unlock` with interrupts disabled
  (cond.c:37), and that ends in a yield (mutex.c:230); the yield is taken to wait until interrupts are enabled again,
  so the whole region is one step.
- Read/write lock: in read mode unlock is called by a holder; there are at most 2^31 - 1 tasks.
- Log ring: an attempt to reserve sees fewer than 2^32 other reservations; the block count n satisfies 3n <= 2^32 and 2n
  divides 2^32. Each flag that the reader looks at and each block that it copies is one step. Which entries are already
  printed and whether the allocation of the copy succeeds are parameters.
- Byte ring: sizes for which `memcpy_s` does not refuse to copy. The test before the lock and the locked region are two
  steps; a reset is not one of the steps.
- Message queue: a blocked caller's buffer does not change while it is blocked.
- IPv6 text: the build without embedded IPv4 addresses; parsed strings end with a NUL.

## Where the code differs from its documentation or intent

- `cib.h` allows sizes up to 2^31. At exactly 2^31 the signed comparison of `cib_put` lets a put through when the buffer
  is full; it is exact for every other documented size (`Cib.FullTestExactWhen`).
- `ipv6_addr_from_buf` accepts "::" beside eight groups and then loses the groups behind it, because the shift copies
  each byte onto itself and clears it (`Ipv6Parse.DoubleColonRightWhen`). It also accepts a NUL inside the text as a digit
  of value 16, a single colon behind the last group, and groups of more than four digits; these are all the ways in
  which it accepts more than standard texts (`Ipv6Parse.AcceptsExactly`, `Ipv6Parse.AcceptedMeans`), and there is one
  text for each (`Ipv6Parse.LastGroupLost`, `NulAccepted`, `TrailingColonAccepted`, `LongGroupAccepted`).
- The log reader skips the valid flags when the ring is nearly full and in its last read, and then takes entries whose
  writers have not finished (`LogRuns.TakesUnfinished`); delivery is right exactly when every block it takes has been
  written (`LogRuns.DeliveredRightExactly`), and the flags protect exactly when every block it takes without a look is
  finished (`LogRuns.FinishedExactly`). A writer that goes on after its entry was taken can destroy a finished entry of
  the next lap (`LogRuns.SlowWriterRun`).
- A message of a more urgent sender that goes to wait overtakes those of less urgent waiting senders
  (`RiotOrder.OvertakingRun`); with that and a new `msg_init_queue` excepted, messages are received in the order in
  which they were accepted (`RiotOrder.FifoExactly`).
- The byte ring tests for emptiness and fullness before it takes the lock and not again inside, so two readers or two
  writers break it (`ByteRing.TwoReadersFail`, `ByteRing.TwoWritersFail`); `ByteRing.FifoExactly` gives the exact condition.
- `thread_flags_wait_one` reads the flags with interrupts enabled and clears them later, so it can return a flag although
  a lower one of the mask is set (`RiotFlags.LowerFlagPassedOver`); `RiotFlags.WaitOneReturns` gives the exact condition.
- The header says `ipv6_addr_to_str` fails when the result buffer is shorter than the longest text; the code fails only
  when the actual text does not fit (`Ipv6Code.ToStr`).
- `OsRwLockPendFindPosSub` inserts behind the first waiter of equal priority, not behind the last
  (`RwLock.FifoExactlyWhen`, `RwLock.NotAlwaysFifo`).
- A read/write lock taken again by its writer is not counted (`RwLock.RelockIsNotCounted`).
- When a waiting writer gives up, nobody looks at the readers behind it (`RwLock.ReadersBehindWriterExactly`).
- `msg_send_receive` to a missing thread returns -1 but has already taken the caller off the run queue
  (`RiotMessages.SendReceiveToNobodyStrands`).

## Model

| member | source | states |
|---|---|---|
| `SemInvariant.EveryRunInherits` | Closed_source/oracles/156.c:14-44 | In every state of every run, deadlock cycles included, a task's priority is the best base priority among itself and everything transitively blocked on mutexes it holds. |
| `SemInvariant.EveryRunBestOfWaiters` | Closed_source/oracles/157.c:6-31 | In every state of every run a task's priority equals the best of its base priority and the priorities of all tasks waiting on its mutexes. |
| `SemInvariant.EveryOwnerUrgent` | Closed_source/oracles/156.c:14-44 | An owner is at least as urgent as every task transitively blocked on it. |
| `SemInvariant.EveryRunKeepsTables` | Closed_source/oracles/161.c:3-22 | A mutex has count one exactly when it has no owner, then nobody waits for it; otherwise it is on exactly its owner's held list; waiters mean count zero; priority-mode lists are in order. |
| `SemInvariant.BoostKeeps` | Closed_source/oracles/156.c:14-44 | For any wait-for graph the walk ends with ordered owners and ordered lists, having lifted nothing but tasks on the chain. |
| `SemInvariant.InheritLiftsChain` | Closed_source/oracles/156.c:14-44 | Closed form: exactly the chain of owners is lifted to at least the new priority. |
| `SemInvariant.ResortedList` | Closed_source/oracles/158.c:7-20 | Taking a boosted waiter out and putting it back orders the list and keeps its members. |
| `SemInvariant.PendListPutKeeps` | Closed_source/oracles/160.c:8-42 | Blocking, sorted enqueue and inheritance together keep the invariant. |
| `SemInvariant.PendKeeps` | Closed_source/oracles/165.c:12-66 | A pend keeps the invariant on every branch. |
| `SemInvariant.BestPendingIsBest` | Closed_source/oracles/155.c:7-15 | Looking at the first waiter of each held mutex finds the best of all waiters. |
| `SemInvariant.RestoreKeeps` | Closed_source/oracles/157.c:6-31 | Restoring turns 'everybody but the running task is exact' into the whole invariant. |
| `SemInvariant.PostKeeps` | Closed_source/oracles/166.c:7-60 | A post keeps the invariant: hand-over, release and recursive release. |
| `SemInvariant.SetPriorityKeeps` | Closed_source/oracles/14.c:26-48 | What the guard lets through keeps the invariant. |
| `SemInvariant.UncheckedPriorityBreaks` | Closed_source/oracles/154.c:6-33 | The guard is needed: without it a waiter can become more urgent than its owner. |
| `SemInvariant.CreateKeeps` | Closed_source/oracles/32.c:1-17 | A new semaphore as the creators make it keeps the invariant. |
| `SemLedger.BalanceIsAvailable` | Closed_source/oracles/163.c:8-23 | Over every run, what was created and released less what was acquired is what is still available (for a mutex modulo 2^32). |
| `SemLedger.CountingConserves` | Closed_source/oracles/166.c:20-57 | Counting semaphore: initial count plus accepted posts less acquisitions is the count, and waiters exist only at zero. |
| `SemLedger.MutexFreeWhenBalanced` | Closed_source/oracles/164.c:3-15 | A mutex is free exactly when it was released as often as acquired, while nesting stays below 2^32. |
| `SemLedger.NestingWraps` | Closed_source/oracles/161.c:4-8 | The bound is needed: a run in which a mutex is taken 2^32 + 1 times, given back once, and free although the balance says it is still held 2^32 times. |
| `SemKernel.Kernel.FindPosition` | Closed_source/oracles/160.c:18-27 | State after the call equals the specification function of the state before: the position a newcomer is inserted at. |
| `SemKernel.Kernel.ResortSemList` | Closed_source/oracles/158.c:1-21 | State after the call equals the specification function of the state before: the new table after re-sorting one waiter. |
| `SemKernel.Kernel.PriorityInherit` | Closed_source/oracles/156.c:5-45 | State after the call equals the specification function of the state before: the walk along owner pointers ends, and leaves the boosted tables. |
| `SemKernel.Kernel.SemPendListPut` | Closed_source/oracles/160.c:3-43 | State after the call equals the specification function of the state before: the tables after blocking and inheritance. |
| `SemKernel.Kernel.SemPendNotNeedSche` | Closed_source/oracles/161.c:3-22 | State after the call equals the specification function of the state before: recursive or free acquisition, and when it is refused. |
| `SemKernel.Kernel.SemPend` | Closed_source/oracles/165.c:12-66 | State after the call equals the specification function of the state before: new tables and return code on every branch. From the invariant, each answer has its exact condition and its effect on readiness, holdings and lists (as in SemEffects.PendDoes). |
| `SemKernel.Kernel.GetPendTskMaxPriority` | Closed_source/oracles/155.c:3-16 | State after the call equals the specification function of the state before: the loop computes the best waiter priority. |
| `SemKernel.Kernel.PriorityRestore` | Closed_source/oracles/157.c:3-31 | State after the call equals the specification function of the state before: new priority and place on the ready queue. A task that is neither suspended nor blocked is ready afterwards, and no other task changes. |
| `SemKernel.Kernel.SemPendListGet` | Closed_source/oracles/159.c:3-38 | State after the call equals the specification function of the state before: the first waiter becomes owner, the held entry moves. The new owner is ready unless suspended, and the releasing task stays ready. |
| `SemKernel.Kernel.SemPostIsInvalid` | Closed_source/oracles/164.c:3-15 | State after the call equals the specification function of the state before: recursive release and the ineffective post. |
| `SemKernel.Kernel.SemPost` | Closed_source/oracles/166.c:7-60 | State after the call equals the specification function of the state before: new tables and return code on every branch. From the invariant, each answer has its exact condition and its effect on readiness, holdings and lists (as in SemEffects.PostDoes). |
| `SemKernel.Kernel.TaskSetPriority` | Closed_source/oracles/14.c:9-58 | State after the call equals the specification function of the state before: both priorities change exactly when the guard allows. From the invariant, each answer has its exact condition on fields and wait lists, Ok sets both priorities and nothing else, and any other answer changes nothing. |
| `SemEffects.PendDoes` | Closed_source/oracles/165.c:12-66 | Each answer is given exactly when its condition on table, interrupt, lock and timeout holds. Ok: the caller has the semaphore once more and nobody else notices. Blocked: it waits behind everybody at least as urgent and is not ready; the others keep readiness, holdings and, unless lifted, their order. Any other answer changes nothing. |
| `SemEffects.PostDoes` | Closed_source/oracles/166.c:7-60 | Each answer is given exactly when its condition holds. Ok: one nesting level less, or the first waiter has the semaphore, waits no more and is ready unless suspended, or it is free, or its count is one more; the poster is ready as before, unless it had to change priority while suspended or blocked; nobody else changes. Any other answer changes nothing. |
| `SemEffects.SetPriorityDoes` | Closed_source/oracles/14.c:9-58 | Ok exactly when the priority is in range, the task exists, is not lifted, waits on no mutex or priority-mode semaphore, and, if it owns a mutex, the priority is as urgent as its base and all waiters; then both priorities are set and nothing else changes. Each other code with its condition; it changes nothing. |
| `SemEffects.CreateDoes` | Closed_source/oracles/32.c:1-16 | A new semaphore is in use with the count, kind and mode asked for, without owner and waiters; nothing else changes. |
| `SemEffects.EveryRunLosesNobody` | Closed_source/oracles/157.c:24-29 | Over every run: no pend, post or priority change leaves a task off the ready queue that is neither waiting nor suspended nor blocked. |
| `PrioList.InsertSorted` | Closed_source/oracles/160.c:17-24 | Inserting before the first less urgent element keeps the list in order. |
| `PrioList.InsertOvertakes` | Open_source/RIOT/core/thread.c:183-201 | A newcomer gets ahead only of strictly less urgent waiters. |
| `PrioList.InsertKeepsOrder` | Open_source/RIOT/core/thread.c:183-201 | Waiters already in the list keep their relative order. |
| `MsgQueue.TokensConserved` | Closed_source/oracles/173.c:6-35 | Filled cells are readableCnt plus the woken readers' tokens, free cells writableCnt plus the woken writers' tokens, summing to nodeNum; somebody waits only while no token of its kind is free. |
| `MsgQueue.RefinesDeque` | Closed_source/oracles/172.c:6-30 | The ring of every run is a double-ended queue: normal messages join at the back, urgent ones at the front, every read, also a blocked one, gets the start of the front message, and no woken reader finds it empty. |
| `MsgQueue.EachMessageOnce` | Closed_source/oracles/175.c:38-57 | In every state of every run the messages written so far are, with multiplicity, those read so far and those the queue holds. |
| `MsgQueue.OrdinaryIsFifo` | Closed_source/oracles/172.c:6-13 | In a run without urgent writes the messages written so far are, in order, those read so far followed by those the queue holds. |
| `MsgQueue.PeakIsMaximum` | Closed_source/oracles/172.c:32-37 | nodePeak is the largest fill of the run so far. |
| `MsgQueue.PutRefines` | Closed_source/oracles/172.c:6-30 | Head or tail insertion with a free cell in hand prepends or appends, and overwrites nothing. |
| `MsgQueue.TakeRefines` | Closed_source/oracles/175.c:38-57 | Reading with a filled cell in hand removes exactly the front message and truncates to the buffer. |
| `MsgQueue.StepRefines` | Closed_source/oracles/176.c:16-46 | Every read, write, resumption and timeout keeps the tokens and does to the messages what the double-ended queue does. |
| `MsgQueueCb.QueueCb.constructor` | Closed_source/oracles/179.c:22-42 | Initial counts, indices and peak. |
| `MsgQueueCb.QueueCb.CopyToNode` | Closed_source/oracles/172.c:4-37 | In-place node write, index update and peak equal the specification. |
| `MsgQueueCb.QueueCb.WakeReader` | Closed_source/oracles/173.c:5-35 | The first blocked reader gets the token. |
| `MsgQueueCb.QueueCb.WakeWriter` | Closed_source/oracles/173.c:5-35 | The first blocked writer gets the token. |
| `MsgQueueCb.QueueCb.PendRead` | Closed_source/oracles/171.c:7-49 | Takes a token, fails with the right code, or blocks at the end of the read list. |
| `MsgQueueCb.QueueCb.PendWrite` | Closed_source/oracles/171.c:7-49 | Takes a token, fails with the right code, or blocks at the end of the write list. |
| `MsgQueueCb.QueueCb.QueueRead` | Closed_source/oracles/175.c:18-70 | New state and status on every branch. From the invariant, Ok exactly when there is a message no woken reader has a claim to, and then the start of the front message is returned; every other answer has its exact condition and effect. |
| `MsgQueueCb.QueueCb.QueueWrite` | Closed_source/oracles/176.c:8-46 | New state and status on every branch. From the invariant, Ok exactly when the text fits and a cell is free that no woken writer has a claim to, and then the message is appended or prepended; every other answer has its exact condition and effect. |
| `MsgQueueCb.QueueCb.ResumeReader` | Closed_source/oracles/175.c:38-66 | A woken reader finds a message and removes exactly the front one. |
| `MsgQueueCb.QueueCb.ResumeWriter` | Closed_source/oracles/176.c:33-42 | A woken writer finds a free cell. |
| `MsgQueueEffects.ReadDoes` | Closed_source/oracles/175.c:18-70 | Ok exactly when there is a message that no woken reader has a claim to, each other answer with its condition. Ok takes the front message and wakes the first waiting writer, Blocked puts the caller at the end of the readers, anything else changes nothing. |
| `MsgQueueEffects.WriteDoes` | Closed_source/oracles/176.c:8-46 | Ok exactly when the text fits and there is a cell that no woken writer has a claim to, each other answer with its condition, the two size codes included. Ok stores the message and wakes the first waiting reader, Blocked puts the caller at the end of the writers, anything else changes nothing. |
| `MsgQueueEffects.ReadResumeDoes` | Closed_source/oracles/175.c:38-66 | A woken reader that goes on gives up its token, takes the front message and wakes the first waiting writer. |
| `MsgQueueEffects.WriteResumeDoes` | Closed_source/oracles/176.c:33-42 | A woken writer that goes on gives up its token, stores its message and wakes the first waiting reader. |
| `MsgQueueEffects.ExpireDoes` | Closed_source/oracles/171.c:28-44 | A caller that gives up leaves its list; the others keep their order and nothing else changes. |
| `MsgQueueEffects.CreatedDoes` | Closed_source/oracles/179.c:22-42 | A new queue is empty, all its cells are free, and nobody waits. |
| `RwLock.EveryRunExcludes` | Closed_source/oracles/52.c:12-31 | The count is -1 with exactly one writer inside and no reader, or it is the number of reads held; nobody waits while it is 0; both lists are in order. |
| `RwLock.ReadersWaitForWritersOnly` | Closed_source/oracles/49.c:29-46 | While readers hold the lock a reader waits only behind a writer at least as urgent, when no waiting writer gives up. |
| `RwLock.ReadersBehindWriterExactly` | Closed_source/oracles/47.c:13-23 | In every state of a run a reader waits behind a writer at least as urgent while readers hold the lock, if and only if no step was the timeout of the first writer that leaves a more urgent reader in front. |
| `RwLock.StepStrandsExactly` | Closed_source/oracles/47.c:13-23 | The same for one step: which step breaks the rule, for all states and all steps. |
| `RwLock.GivingUpStrandsReader` | Closed_source/oracles/47.c:13-23 | A concrete run in which a timeout leaves a reader waiting behind nobody. |
| `RwLock.PostWakesExactly` | Closed_source/oracles/48.c:7-51 | The last release wakes exactly the readers more urgent than the first waiting writer (all without one), else exactly that writer. |
| `RwLock.WakeMoreExact` | Closed_source/oracles/48.c:34-46 | The wake-up loop stops exactly at the first reader not more urgent than the writer, and does not overflow the count. |
| `RwLock.FindPosSorted` | Closed_source/oracles/44.c:7-21 | Inserting at the chosen position keeps the list in order. |
| `RwLock.FifoExactlyWhen` | Closed_source/oracles/45.c:6-16 | The position is first come, first served among equals exactly when the last waiter is no less urgent than the newcomer or fewer than two waiters are as urgent. |
| `RwLock.NotAlwaysFifo` | Closed_source/oracles/45.c:6-16 | Concrete lists in which a newcomer overtakes an equally urgent waiter. |
| `RwLock.RelockIsNotCounted` | Closed_source/oracles/53.c:31-39 | A writer that locks again succeeds without being counted; one unlock lets go. |
| `RwLock.StepKeeps` | Closed_source/oracles/52.c:5-31 | Every lock, unlock, timeout and priority change keeps the invariant. |
| `RwLockCb.ControlBlock.FindPosSub` | Closed_source/oracles/45.c:3-18 | State and result equal the specification: the loop over the interior of the list. |
| `RwLockCb.ControlBlock.FindPos` | Closed_source/oracles/44.c:3-21 | State and result equal the specification: the case analysis on first and last waiter. |
| `RwLockCb.ControlBlock.PendRead` | Closed_source/oracles/46.c:1-16 | State and result equal the specification: blocking on the read list. |
| `RwLockCb.ControlBlock.PendWrite` | Closed_source/oracles/46.c:1-16 | State and result equal the specification: blocking on the write list. |
| `RwLockCb.ControlBlock.RdPend` | Closed_source/oracles/49.c:7-46 | State and result equal the specification: read lock and try-lock on every branch, refusals included. Each answer has its exact condition and effect. |
| `RwLockCb.ControlBlock.WrPend` | Closed_source/oracles/53.c:7-41 | State and result equal the specification: write lock and try-lock on every branch, refusals included. Each answer has its exact condition and effect. |
| `RwLockCb.ControlBlock.WakeReaders` | Closed_source/oracles/48.c:31-51 | State and result equal the specification: the loop that wakes readers. |
| `RwLockCb.ControlBlock.Post` | Closed_source/oracles/48.c:7-51 | State and result equal the specification: the choice of the next holders. |
| `RwLockCb.ControlBlock.Unlock` | Closed_source/oracles/52.c:8-31 | State and result equal the specification: unlock on every branch. Refused exactly when nobody holds the lock or another task writes; otherwise one hold less, or it is passed on. |
| `RwLockEffects.RdLockDoes` | Closed_source/oracles/49.c:7-46 | Each answer of read lock and try-lock is given exactly when its condition on count, owner, waiting writer, timeout and environment holds. Ok counts one more hold, Blocked puts the caller on the read list in order, anything else changes nothing. |
| `RwLockEffects.WrLockDoes` | Closed_source/oracles/53.c:7-41 | Each answer of write lock and try-lock is given exactly when its condition holds. Ok makes the caller the owner, Blocked puts it on the write list in order, anything else changes nothing. |
| `RwLockEffects.UnlockDoes` | Closed_source/oracles/52.c:8-31 | Refused exactly when nobody holds the lock or another task writes. Otherwise one hold less remains, or the last one passes to the readers more urgent than the first waiting writer, else to that writer, else to nobody. |
| `RwLockEffects.UnlockHolders` | Closed_source/oracles/52.c:12-31 | From the invariant: a holder's unlock answers Ok, and afterwards everybody holds the lock as often as before, less one hold of the caller, plus one for each waiter that left its list. |
| `RwLockEffects.FindPosMeans` | Closed_source/oracles/44.c:7-21 | The position found is behind everybody more urgent and in front of everybody less urgent. |
| `RwLockEffects.ExpireDoes` | Closed_source/oracles/47.c:13-23 | A waiter that gives up leaves its list and nothing else changes. |
| `LogRuns.NeverTooFar` | Closed_source/oracles/206.c:9-31 | In every state of every run with the real reader the tail, counted without wrap, is never more than the block count ahead of the head, and outstanding reservations use different slots. |
| `LogRuns.ReservesNext` | Closed_source/oracles/206.c:27-32 | A successful compare-and-store reserves the next count for this writer alone; a failed one reserves nothing. |
| `LogRuns.FailsOnlyWhenFull` | Closed_source/oracles/206.c:17-20 | A writer is turned away only when the ring was full at the moment it read the head. |
| `LogRuns.DeliveredRightExactly` | Closed_source/QSemOS/src/host/log/log_main.c:264-311 | Everything taken is the entry of its reservation, in order and once, if and only if every block was copied after its writer had written it. |
| `LogRuns.FinishedExactly` | Closed_source/QSemOS/src/host/log/log_main.c:275-283 | No entry is taken before its writer has finished, if and only if the blocks read without a look at the flags are finished; then order, contents and flags are right. |
| `LogRuns.RoomMeansRight` | Closed_source/QSemOS/src/host/log/log_main.c:275-291 | A reader that finds room of at least the threshold at every look, and is not stopped, takes every entry once, in order, finished. |
| `LogRuns.TakesUnfinished` | Closed_source/QSemOS/src/host/log/log_main.c:275-279 | A run in which the reader copies an entry that its writer has not written. |
| `LogRuns.SlowWriterSpoils` | Closed_source/oracles/202.c:41-48 | When the slot of an unfinished writer holds the entry of the next lap and the writer goes on, that entry is nowhere in the memory any more, and the flag the writer sets makes it look unfinished. |
| `LogRuns.SlowWriterRun` | Closed_source/QSemOS/src/host/log/log_main.c:275-279 | A run, for every block count, that gets there: the reader takes all n blocks unwritten, a new writer finishes the next entry, the first writer goes on, and the finished entry is lost before it was taken. |
| `LogRuns.TooManyReservations` | Closed_source/oracles/206.c:26-28 | Why fewer than 2^32 reservations per attempt are assumed: in an otherwise allowed state the comparison succeeds and the tail ends n + 1 ahead of the head. |
| `LogRing.LookExact` | Closed_source/QSemOS/src/host/log/log_main.c:264-311 | The reader works on the true number of unread entries and skips the flags exactly when less room than the threshold is left, or in its last read. |
| `LogRing.AnyHeadKeeps` | Closed_source/QSemOS/src/host/log/log_main.c:386-399 | Whatever moves the head to a count up to the tail, the counters stay sound and writers keep what they know. |
| `LogRing.StepKeeps` | Closed_source/oracles/206.c:9-34 | Every atomic step of writers and reader keeps the invariant. |
| `LogRing.EqualTails` | Closed_source/oracles/203.c:7-15 | Two equal reads of the tail make the head between them belong to that tail, and the range check then decides on the true counts. |
| `LogRing.MatchIsFlag` | Closed_source/QSemOS/src/host/log/log_main.c:113-151 | The flag the reader compares with, turned over behind the end of the memory, is that of the lap of the count. |
| `LogCount.RangeCheckExact` | Closed_source/oracles/206.c:12-20 | The range test on wrapped values, with its shift by twice the block count, says exactly whether there is room. |
| `LogCount.ReaderDistance` | Closed_source/QSemOS/src/host/log/log_main.c:313-335 | The reader's shifted counters pass its range check and differ by the true number of entries, also across 2^32. |
| `LogCount.IndexSurvivesWrap` | Closed_source/oracles/202.c:23-29 | Slot and flag computed from the wrapped counter are right for every count exactly when twice the block count divides 2^32. |
| `LogCount.FlagsAlternate` | Closed_source/oracles/202.c:23-29 | Successive occupants of a slot carry opposite flags. |
| `LogWorker.Worker.FixOverflow` | Closed_source/QSemOS/src/host/log/log_main.c:313-335 | Both counters are shifted near the top of the range, after the shift of the round before was taken back. |
| `LogWorker.Worker.CheckValidNum` | Closed_source/QSemOS/src/host/log/log_main.c:113-151 | The two loops return the length of the longest row of matching flags. |
| `LogWorker.Worker.LogRead` | Closed_source/QSemOS/src/host/log/log_main.c:225-261 | Refuses what is out of range, takes nothing when the first flag does not match, reports a failed allocation, and otherwise takes all blocks or the longest row with matching flags. |
| `LogWorker.Worker.OneRound` | Closed_source/QSemOS/src/host/log/log_main.c:362-418 | One round of the main loop takes the blocks from the head on, all of them or the longest row whose flags show their lap, and moves head and flag on by exactly those. |
| `LogEffects.AttemptDoes` | Closed_source/oracles/206.c:9-32 | In true counts: the second look at the tail starts over exactly when somebody reserved since the first, turns away exactly when the ring was full as the head was read; the compare-and-store takes the next count exactly when nobody reserved since. |
| `LogEffects.WritingDoes` | Closed_source/oracles/202.c:22-48 | An entry goes to the slot of its count and nowhere else, and then the flag of its lap goes to the same place. |
| `LogEffects.ReadingDoes` | Closed_source/QSemOS/src/host/log/log_main.c:264-311 | The reader sees the true distance, checks the flags one by one against the laps of their counts, copies the blocks of the next counts and moves the head behind exactly those. |
| `ByteRing.FifoExactly` | Closed_source/oracles/98.c:6-17 | With any number of tasks the ring is first in, first out, if and only if at every lock the test made before it still holds. |
| `ByteRing.OneReaderOneWriter` | Closed_source/oracles/95.c:6-17 | With one reader and one writer the ring is first in, first out in every state of every run. |
| `ByteRing.TwoReadersFail` | Closed_source/oracles/95.c:6-17 | A run with two readers in which a byte is handed out that was never written. |
| `ByteRing.TwoWritersFail` | Closed_source/oracles/98.c:6-17 | A run with two more writers in which an unread byte is overwritten and the free space wraps below zero. |
| `ByteRing.RegionsRightExactly` | Closed_source/oracles/98.c:11-17 | A locked read or write does what it should if and only if the ring is not empty, or not full, when the lock is taken. |
| `ByteRing.WriteAppends` | Closed_source/oracles/93.c:3-27 | With room the longest prefix that fits is appended, across the end of the array. |
| `ByteRing.ReadTakes` | Closed_source/oracles/91.c:3-26 | With bytes there the longest available prefix is handed out and removed, across the end of the array. |
| `ByteRing.EqualIndices` | Closed_source/oracles/98.c:11-16 | Equal indices mean full or empty, told apart by remain alone. |
| `ByteRing.TestDoes` | Closed_source/oracles/98.c:6-9 | The test before the lock answers nothing exactly when the ring is empty, or full, and changes nothing else. |
| `ByteRing.LockedDoes` | Closed_source/oracles/98.c:11-17 | A locked region ends its call; while the test still holds a read hands out as many of the oldest bytes as asked for and available, and a write appends as many as fit. |
| `ByteRingCb.Ringbuf.Init` | Closed_source/oracles/94.c:3-14 | Refused when the ring is in use or the memory is empty; otherwise an empty ring with all space free. |
| `ByteRingCb.Ringbuf.WriteLinear` | Closed_source/oracles/92.c:6-21 | The in-place copy and index update of the linear write. |
| `ByteRingCb.Ringbuf.WriteRight` | Closed_source/oracles/93.c:7-21 | The in-place copy up to the end of the array. |
| `ByteRingCb.Ringbuf.WriteLoop` | Closed_source/oracles/93.c:3-27 | Both in-place copies. |
| `ByteRingCb.Ringbuf.Write` | Closed_source/oracles/98.c:6-19 | By itself: appends the longest prefix that fits; remain stays the free space. |
| `ByteRingCb.Ringbuf.ReadLinear` | Closed_source/oracles/90.c:7-23 | The copy out and index update of the linear read. |
| `ByteRingCb.Ringbuf.ReadRight` | Closed_source/oracles/91.c:7-20 | The copy out up to the end of the array. |
| `ByteRingCb.Ringbuf.ReadLoop` | Closed_source/oracles/91.c:3-26 | Both copies out. |
| `ByteRingCb.Ringbuf.Read` | Closed_source/oracles/95.c:6-19 | By itself: removes and returns the longest available prefix. |
| `ByteRingCb.Ringbuf.Reset` | Closed_source/oracles/96.c:5-16 | Empties the ring. |
| `ByteRingCb.Ringbuf.UsedSize` | Closed_source/oracles/97.c:6-14 | The number of bytes in the ring. |
| `Ring.WindowAppendBlock` | Closed_source/oracles/93.c:10-21 | A block written behind the used cells appends to them, round the end or not. |
| `Ring.WindowSkip` | Closed_source/oracles/91.c:16-20 | Moving the start index over cells drops exactly those. |
| `Ipv6Parse.RoundTrip` | Open_source/riot-bench/oracles/205.c:20-114 | For every 128-bit address, parsing the printed text gives the same address. |
| `Ipv6Text.CompressesFirstLongest` | Open_source/riot-bench/oracles/210.c:16-45 | '::' stands for the first longest run of at least two zero groups, and only if there is one (sections 4.2.2 and 4.2.3 of RFC 5952). |
| `Ipv6Text.TextLength` | Open_source/riot-bench/oracles/210.c:50-102 | The text has 2 to 39 characters. |
| `Ipv6Parse.TextsDiffer` | Open_source/riot-bench/oracles/210.c:16-111 | Different addresses have different texts. |
| `Ipv6Parse.DoubleColonRightWhen` | Open_source/riot-bench/oracles/205.c:95-108 | For every accepted text with '::', the exact condition under which it is read right: fewer than eight groups written, or only zeros behind it. |
| `Ipv6Parse.AcceptsExactly` | Open_source/riot-bench/oracles/205.c:13-114 | A text is accepted if and only if it has 1 to 40 characters and an accepted shape, and every such shape gives the address that is returned: groups of any length and case that fit 16 bits, a NUL counting as a digit, at most one '::', and perhaps one more colon behind the last group. |
| `Ipv6Parse.StandardTextsRead` | Open_source/riot-bench/oracles/205.c:27-114 | Every standard text (section 2.2 of RFC 4291), in either case and with or without leading zeros, gives the address it stands for. |
| `Ipv6Parse.AcceptedMeans` | Open_source/riot-bench/oracles/205.c:27-114 | An accepted text is a standard one or one of four exceptions: a NUL in a group, more than four digits, one more colon at the end, or '::' beside eight groups. |
| `Ipv6Parse.GroupTextMeans` | Open_source/riot-bench/oracles/205.c:32-45 | Without a NUL a group is accepted exactly when it is hexadecimal digits of a number of at most 16 bits, and has that value. |
| `Ipv6Parse.TrailingColonAccepted` | Open_source/riot-bench/oracles/205.c:48-71 | The text 1:2:3:4:5:6:7:8: is accepted. |
| `Ipv6Parse.NulAccepted` | Open_source/riot-bench/oracles/205.c:32-38 | The text ::1 followed by a NUL is accepted, and the NUL makes the last group 0x10. |
| `Ipv6Parse.LastGroupLost` | Open_source/riot-bench/oracles/205.c:95-106 | The text 1:2:3:4:5:6:7::8 is accepted, and its last group is lost: the address ends in 0. |
| `Ipv6Parse.LongGroupAccepted` | Open_source/riot-bench/oracles/205.c:32-46 | The text ::00001 is accepted although its group has five digits. |
| `Ipv6Text.EmitShape` | Open_source/riot-bench/oracles/210.c:52-100 | The format loop writes all groups joined by colons, or the groups around '::'. |
| `Ipv6Code.FromBuf` | Open_source/riot-bench/oracles/205.c:13-114 | Accepts exactly the texts of the specification and leaves exactly that address, written in place. |
| `Ipv6Code.ShiftUp` | Open_source/riot-bench/oracles/205.c:95-107 | The in-place shift behind '::', including the case in which it clears what it just copied. |
| `Ipv6Code.FindBest` | Open_source/riot-bench/oracles/210.c:16-45 | The one-pass search finds the first longest run. |
| `Ipv6Code.PutHex` | Open_source/riot-bench/oracles/210.c:79-92 | The nibble tests write the group without leading zeros. |
| `Ipv6Code.ToStr` | Open_source/riot-bench/oracles/210.c:50-112 | Returns the text when it fits the result buffer, and never overruns its own 40 characters. |
| `Ipv6Text.LowerCase` | Open_source/riot-bench/oracles/210.c:79-92 | The text of every address holds only the characters 0 to 9, a to f and ':'. |
| `Ipv6Text.HexShape` | Open_source/riot-bench/oracles/210.c:79-92 | A group is written with one to four lower-case digits, without a leading zero unless it is 0. |
| `Ipv6Parse.HexMeans` | Open_source/riot-bench/oracles/210.c:79-92 | The digits written for a group are the hexadecimal number of its value. |
| `Checksum.SliceChains` | Open_source/riot-bench/oracles/199.c:16-39 | Splitting a message anywhere, odd places included, and chaining gives the checksum of the whole. |
| `Checksum.AnySplit` | Open_source/riot-bench/oracles/199.c:16-39 | The same for any number of slices. |
| `Checksum.SliceIsOnesSum` | Open_source/riot-bench/oracles/199.c:26-37 | The whole-buffer value is the one's complement sum of the padded 16-bit words (section 2 of RFC 1071). |
| `Checksum.ReceiverSeesAllOnes` | Open_source/riot-bench/oracles/199.c:26-37 | A message that carries the complement of its sum adds up to all ones. |
| `Checksum.FoldIsCanonical` | Open_source/riot-bench/oracles/199.c:34-37 | Folding the carries reduces modulo 65535 and keeps zero apart. |
| `Checksum.InetCsumSlice` | Open_source/riot-bench/oracles/199.c:3-41 | The loops compute the slice checksum, and the 32-bit accumulator never wraps for any 16-bit length. |
| `Cib.QueueMsg` | Open_source/RIOT/core/msg.c:43-61 | The message joins the end of the queue unless it is full; indices stay right when the counters wrap. |
| `Cib.TakeMsg` | Open_source/RIOT/core/msg.c:360-376 | The first message leaves the queue. |
| `Cib.CibT.constructor` | Open_source/riot-bench/oracles/440.h:1-9 | Any size that passes the assertion is set with both counts 0, and the buffer works for every such size but 2^31. |
| `Cib.CibT.Available` | Open_source/riot-bench/oracles/438.h:1-4 | The number of items, across the wrap of the counters. |
| `Cib.CibT.Put` | Open_source/riot-bench/oracles/443.h:3-10 | An index follows exactly when there is room, else -1 and no change. |
| `Cib.CibT.Get` | Open_source/riot-bench/oracles/439.h:3-8 | An index follows exactly when there is an item, else -1 and no change. |
| `Cib.FullTestExactWhen` | Open_source/riot-bench/oracles/443.h:5-8 | The signed comparison is an exact test for room for every documented size but 2^31. |
| `Cib.PowerTest` | Open_source/riot-bench/oracles/440.h:3-4 | size & (size - 1) vanishes exactly for powers of two. |
| `Cib.MaskIsMod` | Open_source/riot-bench/oracles/443.h:7-7 | Masking with 2^k - 1 is reduction modulo 2^k. |
| `Cib.IndexFollows` | Open_source/riot-bench/oracles/439.h:4-4 | The next index goes round the array, also when the counter wraps. |
| `Clist.RPush` | Open_source/riot-bench/oracles/456.h:3-10 | Appends a node. The pointers form exactly the resulting sequence. |
| `Clist.LPush` | Open_source/riot-bench/oracles/452.h:3-11 | Prepends a node. The pointers form exactly the resulting sequence. |
| `Clist.LPop` | Open_source/riot-bench/oracles/450.h:3-15 | Removes the first node. The pointers form exactly the resulting sequence. |
| `Clist.LPopRPush` | Open_source/riot-bench/oracles/451.h:3-6 | Moves the first node to the end. The pointers form exactly the resulting sequence. |
| `Clist.FindBefore` | Open_source/riot-bench/oracles/447.h:4-16 | Ends, and finds the predecessor exactly when the node is in the list. The pointers form exactly the resulting sequence. |
| `Clist.Find` | Open_source/riot-bench/oracles/446.h:4-12 | Finds exactly the nodes in the list. The pointers form exactly the resulting sequence. |
| `Clist.Count` | Open_source/riot-bench/oracles/444.h:3-14 | Ends with the number of nodes. The pointers form exactly the resulting sequence. |
| `Clist.Remove` | Open_source/riot-bench/oracles/454.h:3-19 | Removes any node; the others keep their order; a foreign node changes nothing. The pointers form exactly the resulting sequence. |
| `Clist.RPop` | Open_source/riot-bench/oracles/455.h:3-12 | Removes the last node by rotating; the remaining order is unchanged. The pointers form exactly the resulting sequence. |
| `Clist.Add` | Open_source/riot-bench/oracles/557.h:1-5 | Links a node directly behind another. The pointers form exactly the resulting sequence. |
| `Clist.RemoveHead` | Open_source/riot-bench/oracles/559.h:1-9 | Removes the first node of a linear list. The pointers form exactly the resulting sequence. |
| `Clist.ListRemove` | Open_source/riot-bench/oracles/558.h:1-11 | Removes any node of a linear list. The pointers form exactly the resulting sequence. |
| `Clist.AddThread` | Open_source/RIOT/core/thread.c:183-201 | Pointer-level insertion behind every node at least as urgent; order of urgency is kept. |
| `Clist.SameRing` | Open_source/RIOT/core/lib/include/clist.h:77-86 | The pointers of a ring determine its sequence. |
| `RiotRuns.EveryRunKeepsOneList` | Open_source/RIOT/core/sched.c:262-276 | Each thread's node is on at most one list, every node on a list has the status that list is for, and a thread that must be on a list is on one. |
| `RiotRuns.EveryRunIndexAgrees` | Open_source/RIOT/core/sched.c:91-116 | Bit p of the cache is set exactly when run queue p is not empty, in both bit orders. |
| `RiotRuns.EveryRunSchedulesMostUrgent` | Open_source/RIOT/core/sched.c:144-222 | sched_run picks the head of the most urgent non-empty queue; then exactly that thread is RUNNING and nobody runnable is more urgent. |
| `RiotRuns.InvariantOfRun` | Open_source/RIOT/core/sched.c:227-276 | The whole kernel invariant holds in every state of every run of 22 kinds of calls. |
| `RiotRuns.StepKeeps` | Open_source/RIOT/core/msg.c:85-435 | Every critical section keeps the kernel invariant. |
| `Bitcache.FirstIsMostUrgent` | Open_source/RIOT/core/sched.c:109-116 | In both bit orders the cache yields the most urgent priority whose bit is set. |
| `RiotSteps.SchedRunPicks` | Open_source/RIOT/core/sched.c:144-222 | One scheduler run: who runs, who is active, and nobody runnable is more urgent. |
| `RiotSteps.ChangePriorityLists` | Open_source/RIOT/core/sched.c:332-346 | A priority change moves a runnable thread between queues and keeps lists and cache. |
| `RiotSteps.MutexLockKeeps` | Open_source/RIOT/core/mutex.c:49-133 | Locking keeps the kernel invariant. |
| `RiotSteps.MutexUnlockKeeps` | Open_source/RIOT/core/mutex.c:184-231 | Unlocking keeps the kernel invariant. |
| `RiotSteps.CondWaitKeeps` | Open_source/RIOT/core/cond.c:32-43 | Waiting on a condition keeps the kernel invariant. |
| `RiotSteps.CondSignalKeeps` | Open_source/RIOT/core/cond.c:52-75 | Signal and broadcast keep the kernel invariant. |
| `RiotSteps.MsgSendKeeps` | Open_source/RIOT/core/msg.c:85-179 | Sending keeps the kernel invariant. |
| `RiotSteps.MsgReceiveKeeps` | Open_source/RIOT/core/msg.c:351-435 | Receiving keeps the kernel invariant. |
| `RiotSteps.MsgSendReceiveKeeps` | Open_source/RIOT/core/msg.c:272-286 | Send-and-receive keeps the kernel invariant. |
| `RiotSteps.MsgReplyKeeps` | Open_source/RIOT/core/msg.c:288-317 | A reply to a received request keeps the kernel invariant. |
| `RiotSteps.FlagsSetKeeps` | Open_source/RIOT/core/thread_flags.c:25-51 | Setting flags keeps the kernel invariant. |
| `RiotSteps.FlagsWaitKeeps` | Open_source/RIOT/core/thread_flags.c:64-135 | Waiting for flags keeps the kernel invariant. |
| `RiotSteps.ThreadCreateKeeps` | Open_source/RIOT/core/thread.c:307-373 | Creating a thread keeps the kernel invariant. |
| `RiotMutex.MutualExclusion` | Open_source/RIOT/core/mutex.c:95-133 | At most one thread is between getting a mutex and releasing it, and the mutex is locked exactly while one is. |
| `RiotMutex.UnlockPassesOn` | Open_source/RIOT/core/mutex.c:184-214 | Unlock with waiters hands the mutex to the first of them without passing through the unlocked state. |
| `RiotMutex.OvertakenByMoreUrgentOnly` | Open_source/RIOT/core/mutex.c:67-74 | A waiter is overtaken only by a strictly more urgent thread that just joined. |
| `RiotMutex.OthersKeep` | Open_source/RIOT/core/mutex.c:184-257 | No other call of the kernel changes a mutex or its waiters. |
| `RiotMessages.EveryMessageOnce` | Open_source/RIOT/core/msg.c:85-179 | In every run each accepted message was delivered once, is pending once, or was forgotten by a new msg_init_queue. |
| `RiotMessages.ReceiveTakesHead` | Open_source/RIOT/core/msg.c:351-435 | A receive with mail removes exactly the head of queue-then-waiters. |
| `RiotMessages.ReceiveWaits` | Open_source/RIOT/core/msg.c:366-402 | A receive without mail blocks with nothing pending, or fails. |
| `RiotMessages.QueueAppends` | Open_source/RIOT/core/msg.c:43-61 | A queued message becomes the last pending one. |
| `RiotMessages.DirectDelivers` | Open_source/RIOT/core/msg.c:165-172 | A message for a thread blocked in receive is handed over at once. |
| `RiotMailbox.StepRefines` | Open_source/RIOT/core/msg.c:85-435 | For every call and every thread, what was received and what is pending change by one operation on a sequence: append, insert at the place of a waiting sender, hand over, take the head, clear, or nothing. |
| `RiotMailbox.RunRefines` | Open_source/RIOT/core/msg.c:85-435 | In every state of every run the mailbox of a thread is what the operations of the run so far make of an empty one. |
| `RiotOrder.FifoExactly` | Open_source/RIOT/core/msg.c:43-61 | From any state k of any run on: up to n, what a thread received and what is pending for it are together what they were at k followed by exactly the messages accepted since, in order, if and only if no sender went to wait in front of a less urgent one and no queue with something pending was replaced. |
| `RiotOrder.FifoWithoutWaiting` | Open_source/RIOT/core/msg.c:43-61 | From any state k of any run on, under the condition that in steps k to n - 1 no sender goes to wait for room at the thread and the thread does not call msg_init_queue: what it received and what is pending for it at n are what they were at k followed by the messages accepted since, in order. |
| `RiotOrder.StepOrder` | Open_source/RIOT/core/msg.c:140-157 | One call keeps the order of acceptance exactly when it does not put a sender in front of a less urgent one and replaces no queue with something pending. |
| `RiotOrder.QueuedRun` | Open_source/RIOT/core/msg.c:43-61 | A run with a queue of two messages, both pending in the order they were sent, without a waiting sender. |
| `RiotOrder.OvertakingRun` | Open_source/RIOT/core/msg.c:140-157 | A run in which the order is lost: a more urgent sender goes to wait in front of one that waits already. |
| `RiotMailbox.SendToFull` | Open_source/RIOT/core/msg.c:123-157 | msg_send to a thread without room: a blocking sender waits, its message pending behind all senders at least as urgent; a trying one gets 0 and changes nothing. |
| `RiotMailbox.WaitIndexMeans` | Open_source/RIOT/core/thread.c:183-201 | The place of a waiting message is behind everything queued and all senders at least as urgent, and before all less urgent ones. |
| `RiotMessages.SendConserves` | Open_source/RIOT/core/msg.c:85-179 | A send that answers 1 adds exactly its message; any other answer adds nothing. |
| `RiotMessages.NobodyWaitsInVain` | Open_source/RIOT/core/msg.c:111-156 | Senders wait only while the queue is full or absent, and a RECEIVE_BLOCKED thread has nothing pending. |
| `RiotMessages.EarlyReplyLinksTwice` | Open_source/RIOT/core/msg.c:296-310 | The assumption on replies is needed: an early reply puts a node on two lists. |
| `RiotMailbox.EarlyReplyRun` | Open_source/RIOT/core/msg.c:272-310 | A run to such a state: msg_send_receive to a thread without a queue, after which a reply to the sender would put its node on two lists. |
| `RiotMessages.SendReceiveToNobodyStrands` | Open_source/RIOT/core/msg.c:272-286 | msg_send_receive answers 1 if and only if the target exists; otherwise it answers -1, hands nothing to anybody, and the caller has left the run queue. |
| `RiotEffects.SendDoes` | Open_source/RIOT/core/msg.c:85-179 | A target that waits in receive has the message, is PENDING and on its run queue; one with room has the message in its queue; otherwise the caller waits in order of urgency, or the call has no effect. Each answer with its condition; no other thread changes. |
| `RiotEffects.SendIntDoes` | Open_source/RIOT/core/msg.c:192-238 | From an interrupt: a target that waits in receive has the message, is PENDING and on its run queue; one with room has it in its queue; otherwise 0 is returned and nothing changes. No other thread changes. |
| `RiotEffects.SendToSelfDoes` | Open_source/RIOT/core/msg.c:181-190 | The caller's own queue gets the message exactly when it has room; nothing else changes. |
| `RiotEffects.SendReceiveDoes` | Open_source/RIOT/core/msg.c:272-286 | The caller stops and awaits the reply; a target that waits in receive has the message, is PENDING and on its run queue, one with room has it in its queue, otherwise the caller waits in order of urgency; no other thread changes. |
| `RiotEffects.ReceiveDoes` | Open_source/RIOT/core/msg.c:351-435 | The oldest pending message is received; the sender it came from is PENDING and on its run queue, or still awaits its reply; without mail the caller stops or -1 is returned; no other thread changes. |
| `RiotEffects.ReplyDoes` | Open_source/RIOT/core/msg.c:288-317 | A thread that awaits a reply has it, is PENDING and on its run queue; for any other -1 is returned and nothing changes. |
| `RiotEffects.InitQueueDoes` | Open_source/RIOT/core/msg.c:495-501 | The caller has an empty queue of the size asked for; nothing else changes. |
| `RiotEffects.BlockedReceivedNothing` | Open_source/RIOT/core/msg.c:165-172 | Over every run: as long as a thread stays blocked in receive it has received nothing since it blocked and nothing is pending for it. |
| `RiotEffects.LockDoes` | Open_source/RIOT/core/mutex.c:95-133 | True exactly when the mutex was free or the call may block. A free mutex is taken and no thread changes, a try leaves a taken one alone, otherwise the caller waits behind all at least as urgent. |
| `RiotEffects.FlagsWaitDoes` | Open_source/RIOT/core/thread_flags.c:64-135 | Nothing changes when what is awaited is set; otherwise the caller stops with its mask and kind of wait noted, and nobody else changes. |
| `RiotEffects.FlagsSetDoes` | Open_source/RIOT/core/thread_flags.c:137-156 | The flags are set; a thread that waited and now has what it awaits is PENDING and on its run queue; no other thread changes. |
| `RiotEffects.SleepDoes` | Open_source/RIOT/core/thread.c:105-116 | The caller sleeps on no list; nobody else changes. |
| `RiotEffects.AdvanceDoes` | Open_source/RIOT/core/thread.c:147-155 | The caller's run queue goes round by one and nothing else changes. |
| `RiotFlags.NoLostWakeUp` | Open_source/RIOT/core/thread_flags.c:25-51 | A FLAG_BLOCKED_ANY thread has none of its flags, a FLAG_BLOCKED_ALL thread lacks at least one. |
| `RiotFlags.WaitAnyReturns` | Open_source/RIOT/core/thread_flags.c:100-106 | wait_any returns a non-empty part of the mask. |
| `RiotFlags.WaitOneReturns` | Open_source/RIOT/core/thread_flags.c:108-117 | wait_one, whose read and clear are two steps, returns exactly the flag that was lowest at the read; it is still set; and it is the lowest at the clear if and only if no lower flag of the mask was set in between. |
| `RiotFlags.LowerFlagPassedOver` | Open_source/RIOT/core/thread_flags.c:108-117 | A run in which thread_flags_wait_one reads flag 1, an interrupt sets flag 0, and flag 1 is returned although flag 0 is set and in the mask. |
| `RiotFlags.WaitAllReturns` | Open_source/RIOT/core/thread_flags.c:119-135 | wait_all returns the whole mask. |
| `RiotFlags.OthersKeepPromises` | Open_source/RIOT/core/thread_flags.c:25-51 | Whatever else happens, a waiting thread goes on waiting or its wait is answered, and it loses no flag. |
| `RiotFlags.LowestBitKept` | Open_source/RIOT/core/thread_flags.c:114-116 | On the 16-bit word, tmp & (~tmp + 1) keeps exactly the lowest set bit. |
| `RiotSched.RoundRobin` | Open_source/RIOT/core/thread.c:147-158 | With only yields the k-th yield runs the k-th next thread of the queue. |
| `RiotSched.RunsOncePerLap` | Open_source/RIOT/core/include/sched.h:318-321 | When only the running thread yields, each of the n most urgent threads runs exactly once in any n consecutive turns. |
| `RiotQueues.StepFollows` | Open_source/RIOT/core/sched.c:227-276 | Every call but a yield and a change of priority leaves each run queue in order, takes at most the active thread out of it, and puts those that became runnable at its end. |
| `RiotQueues.FirstComeFirstServed` | Open_source/RIOT/core/sched.c:227-276 | From any state of any run on: while two threads stay on a run queue and no yield sends the first to its end, it stays in front of the second. |
| `RiotQueues.BroadcastInOrder` | Open_source/RIOT/core/cond.c:52-75 | A broadcast puts waiters of the same priority on their run queue in the order in which they waited. |
| `RiotQueues.ChangeFollows` | Open_source/RIOT/core/sched.c:332-346 | A change of priority leaves the order of all others alone and puts a runnable thread at the end of its new queue. |
| `RiotKernel.Kernel.ThreadAddToList` | Open_source/RIOT/core/thread.c:183-201 | The loop inserts the node behind all threads at least as urgent. |
| `RiotKernel.Kernel.FirstQueue` | Open_source/RIOT/core/sched.c:109-116 | The bit loops find the most urgent queue in both orders. |
| `RiotKernel.Kernel.SchedRunNow` | Open_source/RIOT/core/sched.c:144-222 | The invariant is kept, the head of the most urgent queue runs alone, and nobody runnable is more urgent. |
| `RiotKernel.Kernel.SchedChangePriority` | Open_source/RIOT/core/sched.c:332-346 | The invariant is kept, a runnable thread goes to the end of the queue of its new priority and leaves the old one, and no other list or thread changes. |
| `RiotKernel.Kernel.ThreadYield` | Open_source/RIOT/core/thread.c:147-155 | The next of the most urgent threads runs, and the caller goes to the end of their queue. |
| `RiotKernel.Kernel.MutexLockInternal` | Open_source/RIOT/core/mutex.c:95-133 | The mutex is locked afterwards; the caller got a free one and no thread changed, was refused without a change, or waits behind all waiters at least as urgent while nobody else changed; the invariant is kept. |
| `RiotKernel.Kernel.MutexUnlockNow` | Open_source/RIOT/core/mutex.c:184-214 | The first waiter gets the mutex, becomes runnable and is on its run queue, or the mutex is free; no other thread changes; the invariant is kept. |
| `RiotKernel.Kernel.MutexUnlockSleep` | Open_source/RIOT/core/mutex.c:233-257 | The mutex is passed on or free, the first waiter is on its run queue, the caller sleeps on no list, no other thread changes, and the invariant is kept. |
| `RiotKernel.Kernel.CondWaitOn` | Open_source/RIOT/core/cond.c:32-43 | The mutex is passed on or free, the first waiter is on its run queue, the caller waits on the condition behind all at least as urgent, no other thread changes, and the invariant is kept. |
| `RiotKernel.Kernel.CondSignalNow` | Open_source/RIOT/core/cond.c:52-75 | Exactly the first waiter, or all of them, become runnable; no other thread changes; the invariant is kept. |
| `RiotKernel.Kernel.FlagsSetInternal` | Open_source/RIOT/core/thread_flags.c:137-141 | The flags are set, and true is returned if and only if a thread that waited for flags became runnable; it is then on its run queue, and the invariant is kept. |
| `RiotKernel.Kernel.FlagsWaitFor` | Open_source/RIOT/core/thread_flags.c:64-135 | Nothing changes when what is awaited is set, otherwise the thread blocks with its mask and kind of wait noted and nobody else changes; nobody loses a flag or a promised wake-up; the invariant is kept. |
| `RiotKernel.Kernel.FlagsClearAtomic` | Open_source/RIOT/core/thread_flags.c:53-62 | Returns exactly the flags of the mask that were set and clears exactly those; nobody else's flags, waits or mail change; the invariant is kept. |
| `RiotKernel.Kernel.WaitToSend` | Open_source/RIOT/core/msg.c:140-157 | The sender stops, is on the list of its target behind all at least as urgent, and its message is pending at that place. |
| `RiotKernel.Kernel.MsgSendFrom` | Open_source/RIOT/core/msg.c:85-179 | Every mailbox changes by exactly the operation of the call; a target that waited in receive is PENDING and on its run queue; every thread but caller and target is unchanged; each answer has its condition, 1 if and only if the message was accepted; the invariant is kept. |
| `RiotKernel.Kernel.MsgSendOneway` | Open_source/RIOT/core/msg.c:192-238 | The message is handed over to a target that waited in receive, which is then PENDING and on its run queue, or joins the end of its mailbox; no other thread or mailbox changes; 1 is returned if and only if it was accepted; the invariant is kept. |
| `RiotKernel.Kernel.MsgSendAndReceive` | Open_source/RIOT/core/msg.c:272-286 | Every mailbox changes by exactly the operation of the call; a target that waited in receive is PENDING and on its run queue; the caller awaits the reply; nobody else changes; 1 is returned if and only if the target exists; the invariant is kept. |
| `RiotKernel.Kernel.MsgReplyTo` | Open_source/RIOT/core/msg.c:288-317 | A thread that awaits a reply gets it and is on its run queue, for any other nothing changes; no mailbox changes; the invariant is kept. |
| `RiotKernel.Kernel.MsgReceiveBy` | Open_source/RIOT/core/msg.c:351-435 | The head of the caller's mailbox is received and no other mailbox changes; its sender, when it waited, is PENDING and on its run queue or still awaits its reply; nobody else changes; -1 is returned exactly by a try with nothing pending; the invariant is kept. |
| `RiotKernel.Kernel.ThreadWakeupNow` | Open_source/RIOT/core/thread.c:118-145 | Exactly a sleeping thread becomes runnable and is on its run queue; no other thread changes; the invariant is kept. |
| `RiotKernel.Kernel.ThreadCreateNow` | Open_source/RIOT/core/thread.c:307-373 | No thread exactly when all pids are taken; otherwise a new thread under a free pid, asleep or on its run queue; the invariant is kept. |

## Left out

- Timer expiry: the handlers are not shown. A timeout is an environment step that removes the waiter in the message queue and the read/write lock; the semaphore model has none.
- Task and thread deletion, exit and zombies: they would need a policy for held mutexes that the code does not state.
- RIOT mutex priority inheritance: hand-over does not update the recorded owner, so no clean invariant holds.
- `mutex_cancel`: a thread that was already handed the mutex can still report cancellation.
- Mailboxes: a woken blocking writer looks only at fullness again, so readers can be stranded.
- Message bus, `msg_reply_int`, zombies and name lookup: easy members beside the ones modelled.
- QSemOS creation of control blocks: the search for a free block, allocation, and the id arithmetic.
- Null pointers and handles out of range: the guards return at once and change nothing.
- SemKernel.Kernel.SemPend: ends when the caller blocks; the timeout code after the wake-up needs timer expiry, which is not modelled.
- SemKernel.Kernel.TaskSetPriority: is for a created task; the refusal for one that is not created changes nothing.
- MsgQueueCb.QueueCb.constructor: the search for a free control block and a failing allocation are not modelled.
- MsgQueueCb.QueueCb.QueueRead: is for a created queue and a buffer; the refusals before that change nothing.
- MsgQueueCb.QueueCb.QueueWrite: is for a created queue, a buffer and a known priority; the refusals before that change nothing.
- Cib.QueueMsg: is the queue alone; the waiting flag is part of `RiotSystem.QueueMsg`.
- Cib.TakeMsg: is the queue alone; waiting senders are part of `RiotSystem.MsgReceive`.
- LogWorker.Worker.OneRound: takes flags and memory as the values it finds; what writers do meanwhile is treated in `LogRuns.dfy`.
- Lists inside the kernel models: wait lists and run queues are sequences there; pointers are treated in `Clist.dfy`.
- Log ring writers in code form: their steps interleave with those of other writers, so they are modelled as a state machine and not as a method.
- Sequence numbers, time stamps and text truncation of log entries: an entry is one value.
- Fairness beyond yields: nothing is claimed about the scheduling of equally urgent threads when some of them block.
- LogRuns.DeliveredRightExactly: says nothing about when a writer finishes, because a writer may stop between reserving and setting its flag; an entry is one value, so half-written entries are not told from unwritten ones.
- RwLock.ReadersWaitForWritersOnly: holds without timeouts of writers only; `RwLock.ReadersBehindWriterExactly` gives the exact condition.
- RiotMutex.MutualExclusion: holds for releases by holders only, since the code does not look at who unlocks.
- SemLedger.MutexFreeWhenBalanced: is bounded by the width of the nesting counter; `SemLedger.NestingWraps` gives the reason.
- DEBUG output, stack setup, context switching, memory fences, perf counters: no effect on the modelled state.
- IPv4 inside IPv6 text, CoAP options, packet buffers, timers lists and other parts that depend on helpers not shown.
