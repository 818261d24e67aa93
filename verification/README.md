# Asio experiments: verified models of the asynchronous primitives

A Dafny 4.11 project that models the synchronisation primitives of
madmongo1/asio_experiments and proves what they promise. `dafny verify
dfyconfig.toml` checks all of it.

Code that changes objects in place is modelled by classes. Each class method is
proved against a function that says what the operation does to the object's
abstract state (the `...Spec` modules), and the properties of whole runs are
proved about these functions, for every sequence of calls and every schedule. What
one call comes to, at any point of any run, is stated beside them (the `...Calls`
modules), so that no run property is met by operations that do nothing.

| component | modules |
|---|---|
| intrusive ring, semaphore | `BilistNode`, `AsyncSemaphore`, `SemaphoreSpec`, `SemaphoreRuns` |
| executor | `Tasks` |
| mutex, condition variable, guards | `ComposedWait`, `Waiting`, `MutexSpec`, `MutexCalls`, `MutexProgress`, `MutexOrder`, `Mutex`, `ConditionSpec`, `ConditionCalls`, `ConditionVariable`, `LockGuards` |
| transfer latches, transactions | `TransferLatch`, `Transactions`, `TransactionCalls`, `TransactionThreads`, `AtomicTransactions` |
| latched channel, latched read | `ChannelSpec`, `ChannelWalks`, `ValueChannel`, `ReadSpec`, `LatchedRead`, `SharedLatches` |
| circular buffer, copy loop | `ExpandingCircularBuffer`, `CopySpec`, `CopyLoop` |

How the environment appears:

- The executor is a queue of posted handlers. Posting never runs a handler. A turn
  may take any queued task, which covers handlers bound to different executors.
  Each object has its own queue, the part of an executor that concerns it: what
  others post to the same executor touches no state of the object, and turns at
  any position cover every way in which the two may be interleaved.
- An operation is its identifier; the mutex and the condition variable number
  their operations in the order of the calls. A cancellation slot maps an
  operation to the wait operation assigned to it.
- What a predicate evaluates to, what the operating system answers to a read, and
  the results of a copy's source and sink are inputs of the step that uses them.
- The semaphore, mutex and condition variable are used from one thread, as their
  documentation demands. Over the latches, transactions interleave freely at every
  step, whichever threads run them; one thread may have several under way
  (`TransactionThreads` says when that can block it). `std::lock` takes all mutexes
  in one step, and only when all are free.
- One pass of a latched read is one step of a race. While it is under way it holds
  the latch's mutex, which excludes every other committer
  (`Transactions.MayCommitMeansExclusive`), and its socket is its own.
- A `try_send` takes and frees one latch after the other. That it acts as one step all
  the same is proved (`ChannelWalks.WalksAreSends`); what is assumed is that one thread
  at a time uses a channel, which has no lock of its own.
- A lock, and a wait with predicate, receives cancellation signals through
  `async_compose`, which by Asio's default passes on the terminal kind only; a plain
  wait receives all three kinds. The lock behind `async_guard` receives none, because
  its handler (include/asioex/mutex.hpp:139-143) is a plain lambda, with which Asio
  associates no connected cancellation slot.

Where the code and its documentation or its names disagree, the model follows the code:

- `release_all` is documented to bring the value to zero
  (include/asioex/async_semaphore.hpp:47-53). It does so exactly when the value was
  not positive before the call (`SemaphoreRuns.ReleaseAllReachesZero`, with a run that
  fails in `SemaphoreRuns.ReleaseAllLeavesAPermit`).
- `basic_mutex::try_lock` returns the previous state: the caller holds the mutex
  exactly if the result is false (`Mutex.Mutex.TryLock`).
- `value_channel_impl::close` is documented to stop sends (test/transactions.cpp:260-265).
  `try_send` never looks at what it sets, so a closed channel refuses a value exactly
  when it would have refused it open (`ChannelSpec.ClosedRefusesOnlyWhenFull`,
  with an accepting closed channel in `ChannelSpec.ClosedChannelAccepts`).
- The count that the copy loop reports is the number of items sunk, except when a
  cancellation is noticed after the sink has succeeded (`CopySpec.ReportedCount`).
- The mutex queues its contenders in order, but it does not always serve them in the
  order of their calls. It does throughout a run exactly if no event of the run
  overtakes (`MutexOrder.CallOrderIff`), for which it suffices that nobody locks
  during a handoff (`MutexOrder.PatientRunsKeepCallOrder`). A handoff succeeds exactly
  if, when the resumed operation has its turn, the mutex has not been taken since it
  was last unlocked (`MutexOrder.FirstAcquiresIff`); if nobody else unlocks meanwhile,
  that is if nobody has called lock or try_lock (`MutexOrder.HandoffIff`). The runs in
  `MutexOrder.NewcomerOvertakes`, `TryLockOvertakes` and `LeftoverPermitOvertakes`
  depart from the order.
- Two transactions of one thread can block two threads for good
  (`TransactionThreads.HoldAndWaitDeadlocks`): a thread that has locks is blocked exactly
  while it begins another transaction on a locked latch
  (`TransactionThreads.BlockedWithLocksIff`).

## Model

| member | source | states |
|---|---|---|
| BilistNode.Node.LinkBefore | include/asioex/detail/bilist_node.hpp:53-60 | linking a node before any member of a well-formed ring inserts it at that place of the sequence the ring lists, before the head meaning the end |
| BilistNode.Node.Unlink | include/asioex/detail/bilist_node.hpp:44-51 | a node is removed from any position; the rest is a well-formed ring in the same order |
| BilistNode.Node.Size | include/asioex/detail/bilist_node.hpp:62-69 | the walk terminates with the number of nodes behind the head |
| BilistNode.RingUnique | include/asioex/detail/bilist_node.hpp:11-32 | the links determine the sequence: one head cannot be read as two lists |
| AsyncSemaphore.Semaphore.Complete | include/asioex/detail/impl/semaphore_wait_op_model.hpp:82-92 | a wait at any position leaves the ring and its cancellation slot, and its handler is posted once with the given error |
| AsyncSemaphore.Semaphore.AsyncAcquire | include/asioex/impl/basic_async_semaphore.hpp:38-69 | an immediate grant when there is a permit, else parking at the end of the ring |
| AsyncSemaphore.Semaphore.Release | include/asioex/impl/async_semaphore_base.hpp:45-57 | the permit goes to the operation parked longest, else it is kept |
| AsyncSemaphore.Semaphore.TryAcquire | include/asioex/impl/async_semaphore_base.hpp:81-91 | succeeds exactly if there is a permit, which it takes, and leaves the ring alone |
| AsyncSemaphore.Semaphore.Drain | include/asioex/impl/async_semaphore_base.hpp:26-31 | the loop that re-reads the first node after each completion terminates, completes each parked operation once, in order, and counts them |
| AsyncSemaphore.Semaphore.ReleaseAll | include/asioex/impl/async_semaphore_base.hpp:59-69 | every parked operation is posted without error, in order; the result is their number and the permits are unchanged |
| AsyncSemaphore.Semaphore.Destroy | include/asioex/impl/async_semaphore_base.hpp:26-31 | every parked operation is posted with operation_aborted, in order, and none is left |
| AsyncSemaphore.Semaphore.Emit | include/asioex/detail/impl/semaphore_wait_op_model.hpp:67-80 | a signal of an effective kind takes a parked operation out of its place, wherever that is, and posts operation_aborted for it; any other signal, or operation, changes nothing |
| AsyncSemaphore.Semaphore.Value | include/asioex/impl/async_semaphore_base.hpp:72-79 | permits less parked operations |
| SemaphoreRuns.FifoInEveryRun | include/asioex/async_semaphore.hpp:99-110 | in every run the successful completions as posted, followed by the parked operations, are all operations started, in initiation order, less the cancelled; permits are never negative nor kept while someone waits |
| SemaphoreRuns.ExactlyOnce | include/asioex/async_semaphore.hpp:104-110 | at every point each operation started is parked or has had its one handler posted, never both and never twice |
| SemaphoreRuns.LateCancelIsNoOp | include/asioex/detail/impl/semaphore_wait_op_model.hpp:84-92 | cancelling after completion changes nothing |
| SemaphoreRuns.CancelCancels | include/asioex/detail/impl/semaphore_wait_op_model.hpp:67-92 | in every run, cancelling a parked operation takes it out, posts operation_aborted for it and nobody else, and leaves the others in order and the permits alone |
| SemaphoreRuns.TryAcquireSucceedsIff | include/asioex/impl/async_semaphore_base.hpp:81-91 | in every run try_acquire succeeds if and only if value() is positive, which it lowers by one then; it posts nothing and parks nobody |
| SemaphoreRuns.HistoryCountsCalls | include/asioex/impl/async_semaphore_base.hpp:45-57 | the started operations and the releases of the accounts are the calls made |
| SemaphoreRuns.TryAcquireOvertakesNobody | include/asioex/impl/async_semaphore_base.hpp:81-91 | in every run try_acquire succeeds only when nothing is parked |
| SemaphoreRuns.DestroyCompletesAll | include/asioex/impl/async_semaphore_base.hpp:26-31 | after the destructor every operation ever started has had exactly one handler posted, those parked last with operation_aborted in arrival order |
| SemaphoreRuns.PermitConservation | include/asioex/impl/async_semaphore_base.hpp:45-98 | permits left plus permits granted are those given initially plus those released, and value() follows calls, grants and effective cancellations, in every run |
| SemaphoreRuns.ReleaseAllReachesZero | include/asioex/async_semaphore.hpp:47-53 | in every run release_all brings a value that is not positive to zero and leaves a positive one as it is, so the promised zero is reached if and only if the value was not positive |
| SemaphoreRuns.ReleaseAllLeavesAPermit | include/asioex/async_semaphore.hpp:47-53 | a run after which the value is one |
| ComposedWait.TurnKeeps | include/asioex/mutex.hpp:31-54 | a turn of the executor moves one operation and loses none, neither creates nor destroys a permit, and completes without error only operations that passed their test |
| ComposedWait.TurnWorks | include/asioex/mutex.hpp:34-53 | every turn lowers leftover permits plus queued tasks by exactly one, whatever it finds |
| MutexSpec.NoWakeupIsLost | include/asioex/mutex.hpp:32-62 | in every run, whenever the mutex is unlocked while an operation is parked, a successful resume is already queued, even if callers unlock what they do not hold |
| MutexSpec.EachLockInOnePlace | include/asioex/mutex.hpp:32-54 | in every run each lock operation is parked, queued or completed, exactly one of these, and succeeds exactly if one of its own invocations changed locked from false to true |
| MutexSpec.EveryRunIsSafe | include/asioex/mutex.hpp:29-62 | the invariant behind these, over all runs, together with permits that are never negative nor kept while someone waits |
| MutexSpec.OnePermitPerUnlock | include/asioex/mutex.hpp:57-62 | in every run permits left plus permits granted are one plus the number of unlock calls, contended or not |
| MutexSpec.MutualExclusion | include/asioex/mutex.hpp:32-68 | in every run in which callers unlock only what they hold: never two holders, none while the mutex is unlocked, one while it is locked unless the operation that locked it is about to be told |
| MutexCalls.FreeLockCompletes | include/asioex/mutex.hpp:36-47 | at any point of any run, a lock call that finds the mutex free takes it at once and completes without error, as a holder, when its own handler has had its turn |
| MutexCalls.ContendedLockWaits | include/asioex/mutex.hpp:49-53 | one that finds it locked completes nothing: it parks last, or uses up a permit left over to test once more |
| MutexCalls.TryLockNeverWaits | include/asioex/mutex.hpp:64-68 | try_lock leaves the mutex locked, makes its caller a holder if and only if it was free, and disturbs nobody |
| MutexCalls.UnlockResumesOne | include/asioex/mutex.hpp:57-62 | an unlock frees the mutex and resumes the operation parked longest, or leaves one permit more |
| MutexCalls.ResumedTurn | include/asioex/mutex.hpp:34-53 | a resumed operation completes in its turn as a holder if the mutex is free, and otherwise completes nothing and waits on |
| MutexCalls.CancelAborts | include/asioex/mutex.hpp:34-35 | a parked operation that is cancelled leaves its place and completes with operation_aborted in its turn, without touching the mutex or the other contenders |
| MutexCalls.LateCancelIsNoOp | include/asioex/detail/impl/semaphore_wait_op_model.hpp:84-92 | cancelling an operation that is not parked changes nothing |
| MutexProgress.SpinTermination | include/asioex/mutex.hpp:34-53 | under any schedule the spurious passes are bounded: each turn uses up one permit or one task |
| MutexProgress.CanSettle | include/asioex/mutex.hpp:34-53 | every run of turns extends to one that leaves the executor idle |
| MutexProgress.SomeoneGetsTheLock | include/asioex/mutex.hpp:57-62 | if anyone is parked or resumed, the mutex is locked again once the executor is idle, under any schedule |
| MutexProgress.RunsReachHeldAndIdle | include/asioex/mutex.hpp:29-62 | every disciplined run that leaves the mutex locked and the executor idle meets what the handoff results ask for |
| MutexProgress.HandoffRound | include/asioex/mutex.hpp:57-62 | with everyone parked, unlock and idling pass the lock to the operation parked longest and to nobody else |
| MutexProgress.FairHandoff | include/asioex/mutex.hpp:57-62 | n such rounds lock the mutex for the n operations parked longest, one a round, in parking order |
| MutexOrder.CallOrderIff | include/asioex/mutex.hpp:32-62 | throughout a run those who acquired, those resumed and those parked are, in this sequence, in the order of their calls, if and only if no lock call takes a mutex that is being handed over, no resumed operation passes one resumed before it, and none falls behind one that is resumed or parked after it |
| MutexOrder.CallOrderKept | include/asioex/mutex.hpp:32-62 | then the lock is acquired in call order, and whoever is parked was called later and waits in call order |
| MutexOrder.PatientRunsKeepCallOrder | include/asioex/mutex.hpp:32-68 | if callers unlock only what they hold and nobody calls lock or try_lock while a resumed operation waits for its turn, every operation is served in call order |
| MutexOrder.FirstAcquiresIff | include/asioex/mutex.hpp:32-68 | from any state with the mutex free and an operation resumed first in the queue, whatever happens before that operation has its turn, the turn acquires the mutex if and only if it has not been taken since its last unlock; otherwise the operation goes behind all others that wait |
| MutexOrder.HandoffIff | include/asioex/mutex.hpp:34-68 | after an unlock with contenders parked, whatever locks, try_locks, cancellations and turns of later tasks, but no unlock, come before the resumed operation has its turn, that turn acquires the mutex if and only if nobody has called lock or try_lock meanwhile; otherwise it acquires nothing and parks last |
| MutexOrder.NewcomerOvertakes | include/asioex/mutex.hpp:34-53 | a run in which a lock call during a handoff gets the mutex before an operation called earlier |
| MutexOrder.TryLockOvertakes | include/asioex/mutex.hpp:64-68 | a run in which try_lock does the same |
| MutexOrder.HandoffAfterAll | include/asioex/mutex.hpp:34-68 | a run in which the caller of that try_lock unlocks in time and the handoff succeeds |
| MutexOrder.LeftoverPermitOvertakes | include/asioex/async_semaphore.hpp:93 | a run without any unlock in which the permit of the new mutex sends an operation behind one called later |
| MutexOrder.TwoPermitsOvertake | include/asioex/mutex.hpp:57-62 | a run in which the permit of an uncontended unlock shows in the order: operation 4 is parked before operation 2 |
| Mutex.Mutex.constructor | include/asioex/mutex.hpp:21-24 | a new mutex, with its own part of the executor's queue, is unlocked and its semaphore holds one permit |
| Mutex.Mutex.Invoke | include/asioex/mutex.hpp:32-54 | the composed operation's body completes, posts its completion, or suspends, as its error, the mutex and did_suspend tell |
| Mutex.Mutex.AsyncLock | include/asioex/mutex.hpp:26-55 | one specification step of a lock call |
| Mutex.Mutex.Unlock | include/asioex/mutex.hpp:57-62 | one specification step of an unlock |
| Mutex.Mutex.TryLock | include/asioex/mutex.hpp:64-68 | one specification step; the caller becomes a holder exactly if the result is false |
| Mutex.Mutex.Emit | include/asioex/detail/impl/semaphore_wait_op_model.hpp:67-80 | a terminal signal takes a parked lock operation out and posts operation_aborted for it; any other signal, or operation, changes nothing |
| Mutex.Mutex.RunTask | include/asioex/mutex.hpp:34-53 | one specification step of an executor turn on any queued task |
| LockGuards.LockGuard.Assign | include/asioex/mutex.hpp:103-108 | move assignment swaps what the guards own |
| LockGuards.LockGuard.Destroy | include/asioex/mutex.hpp:110-114 | the destructor unlocks what the guard owns, and nothing if it was moved from |
| LockGuards.ProgramDrivesRuns | include/asioex/mutex.hpp:110-146 | whatever a program does with guards, each of its mutexes goes through a run of the mutex specification |
| LockGuards.LocksAreConserved | include/asioex/mutex.hpp:92-146 | in every program each lock operation that completes hands out one guard, whose lock is owned by one guard or has been released once, never both |
| LockGuards.AllReleasedAtTheEnd | include/asioex/mutex.hpp:110-114 | once all guards are destroyed every lock handed out has been released exactly once and no operation is inside a mutex |
| LockGuards.MoveConstructMoves | include/asioex/mutex.hpp:96-99 | in every program the new guard owns what the old one owned, the old one nothing, and the others what they did |
| LockGuards.MoveAssignExchanges | include/asioex/mutex.hpp:103-108 | in every program the two guards exchange what they own and the others own what they did |
| LockGuards.DestroyUnlocks | include/asioex/mutex.hpp:110-114 | in every program destroying a guard unlocks the mutex it owns, whose operation is then no longer inside, and touches no other mutex |
| LockGuards.FreeMutexIsGuarded | include/asioex/mutex.hpp:131-145 | async_guard begins one lock operation, and on a free mutex it has handed out the owning guard once its own handler has had its turn |
| LockGuards.NoLockFails | include/asioex/mutex.hpp:134-143 | in every program no lock operation begun for a guard is aborted, neither queued nor completed |
| LockGuards.DestructorHolds | include/asioex/mutex.hpp:110-114 | in every program, destroying a guard that owns a mutex unlocks for an operation that is inside it |
| LockGuards.ProgramsAreDisciplined | include/asioex/mutex.hpp:110-146 | in every program the run of each mutex is one in which only holders unlock |
| LockGuards.OneGuardAtATime | include/asioex/mutex.hpp:92-146 | in every program at most one guard owns a mutex, and while one does the mutex is locked with that guard's operation alone inside |
| ConditionSpec.EveryRunIsSafe | include/asioex/condition_variable.hpp:31-82 | in every run each wait is in exactly one place, notifications are conserved, and passing implies a true predicate |
| ConditionSpec.NoNotificationLost | include/asioex/condition_variable.hpp:71-82 | wakes handed out are notify_one calls plus waits woken by notify_all less permits kept, and permits are kept only while nothing is parked |
| ConditionSpec.PredicateHeldOnSuccess | include/asioex/condition_variable.hpp:44-68 | a wait with a predicate completes without error only if one of its own invocations evaluated it to true |
| ConditionCalls.PlainWaitWaits | include/asioex/condition_variable.hpp:31-34 | at any point of any run, a wait without predicate completes nothing: it parks last, or uses up a notification that was kept |
| ConditionCalls.PlainSuccessNeedsNotification | include/asioex/condition_variable.hpp:31-82 | in every run the waits without predicate that have completed without error, or are about to, are no more than the notify_one calls and the waits parked at notify_all calls |
| ConditionCalls.PredicateWaitPassesIff | include/asioex/condition_variable.hpp:44-68 | a wait whose predicate is true at the call completes without any notification once its own handler has had its turn; one whose predicate is false waits |
| ConditionCalls.ResumedTurn | include/asioex/condition_variable.hpp:44-68 | a resumed wait completes in its turn if and only if it has no predicate or the predicate is true then; otherwise it waits on |
| ConditionCalls.NotifyOneResumesOne | include/asioex/condition_variable.hpp:71-76 | notify_one resumes the wait parked longest, or is kept |
| ConditionCalls.CancelAborts | include/asioex/condition_variable.hpp:44-45 | a parked wait that is cancelled leaves its place and completes with operation_aborted in its turn, whatever its predicate |
| ConditionSpec.NotifyAllWakesTheParked | include/asioex/condition_variable.hpp:78-82 | notify_all resumes exactly the waits parked at the call, in order, and leaves stored permits as they were |
| ConditionSpec.SpinTermination | include/asioex/condition_variable.hpp:44-68 | stored permits cause finitely many re-evaluations, however the predicates turn out |
| ConditionVariable.ConditionVariable.AsyncWait | include/asioex/condition_variable.hpp:31-34 | one specification step of a wait without predicate |
| ConditionVariable.ConditionVariable.Emit | include/asioex/detail/impl/semaphore_wait_op_model.hpp:67-80 | a signal that reaches a parked wait takes it out and posts operation_aborted for it; any other changes nothing |
| ConditionVariable.ConditionVariable.AsyncWaitUntil | include/asioex/condition_variable.hpp:36-69 | one specification step of a wait with predicate |
| ConditionVariable.ConditionVariable.RunTask | include/asioex/condition_variable.hpp:44-68 | one specification step of an executor turn |
| TransferLatch.Latch.Commit | include/asioex/basic_transfer_latch.hpp:69-76 | the latch is committed and its mutex unlocked |
| TransferLatch.Begin1 | include/asioex/impl/transaction.hpp:108-119 | the transaction may commit exactly if the latch was open, and exactly then its mutex stays locked |
| TransferLatch.Begin2 | include/asioex/impl/transaction.hpp:121-134 | the transaction may commit exactly if both latches were open, and exactly then both mutexes stay locked |
| TransferLatch.Transaction2.Commit | include/asioex/impl/transaction.hpp:45-55 | both latches end committed and unlocked, and the transaction ends |
| TransferLatch.Transaction2.Rollback | include/asioex/impl/transaction.hpp:34-43 | both latches end open and unlocked; nothing happens to an ended or denied transaction |
| Transactions.EveryRunKeepsInvariant | include/asioex/impl/transaction.hpp:34-134 | in every interleaving each transaction owns exactly the mutexes it has still to unlock, and finds uncommitted the latches it has still to commit or roll back |
| Transactions.StepSimulates | include/asioex/impl/transaction.hpp:45-55 | every step of every transaction is a step of the atomic specification or invisible, a commit taking effect at its first write |
| Transactions.EveryRunIsAtomic | include/asioex/impl/transaction.hpp:45-55 | whatever the transactions of any threads observe under the latches' locks is a history in which each commit marks all its latches at once |
| Transactions.MarksMatchHistory | include/asioex/basic_transfer_latch.hpp:69-97 | while no commit is under way the marked latches are exactly those the observed history has committed and not reset |
| Transactions.MayCommitMeansExclusive | include/asioex/impl/transaction.hpp:108-134 | a transaction that may commit holds each latch's mutex alone and finds each latch open |
| Transactions.AssertionsHold | include/asioex/basic_transfer_latch.hpp:71-105 | in every interleaving, no latch that a transaction has still to commit or to roll back is committed already, which each latch's commit and rollback asserts |
| Transactions.UnlockedAsOftenAsLocked | include/asioex/impl/transaction.hpp:34-134 | every mutex that a transaction locked it unlocks exactly once, by commit, rollback, destructor or denial |
| Transactions.FinishedTransaction | include/asioex/impl/transaction.hpp:34-55 | the steps of one transaction add up to what the transaction objects promise: a commit leaves every latch committed and unlocked, a rollback or denial marks none and unlocks all |
| Transactions.OnceLockedNeverBlocked | include/asioex/impl/transaction.hpp:45-134 | a transaction that has its locks always has an enabled step and only finitely many left |
| TransactionCalls.BeginLocksIffFree | include/asioex/impl/transaction.hpp:108-134 | at any point of any run, begin_transaction on any number of latches locks all their mutexes if they are free, and otherwise locks none and waits |
| TransactionCalls.TestOpensIff | include/asioex/impl/transaction.hpp:108-134 | with its locks the transaction may commit if and only if none of its latches is committed, and otherwise has only to unlock |
| TransactionCalls.OpenCommits | include/asioex/impl/transaction.hpp:45-55 | a transaction that may commit can be committed |
| TransactionCalls.OpenRollsBack | include/asioex/impl/transaction.hpp:34-43 | and can be rolled back, which marks nothing |
| TransactionCalls.ResetReopens | include/asioex/basic_transfer_latch.hpp:92-97 | a latch that nobody holds can be reset and is open then |
| TransactionCalls.CommitCompletes | include/asioex/impl/transaction.hpp:45-134 | a transaction on any free and open latches, carried through, ends with all of them marked and unlocked after a bounded number of steps, and one commit is observed |
| TransactionCalls.DenialCompletes | include/asioex/impl/transaction.hpp:108-134 | one on latches of which some is committed is denied, unlocks them all and leaves no other trace |
| TransactionCalls.RollbackCompletes | include/asioex/impl/transaction.hpp:34-43 | one that is rolled back unlocks them all and marks none |
| TransactionCalls.TwoLatchCommit | include/asioex/impl/transaction.hpp:121-134 | a run that commits two latches, with its history |
| TransactionThreads.BlockedWithLocksIff | include/asioex/impl/transaction.hpp:45-134 | a thread with any number of transactions that has locks is blocked if and only if it is inside begin_transaction on a latch that is locked |
| TransactionThreads.NoDeadlock | include/asioex/impl/transaction.hpp:108-134 | among threads that begin transactions only while they hold no locks, one can always take a step, as long as one has locks or is inside begin_transaction |
| TransactionThreads.HoldAndWaitDeadlocks | include/asioex/impl/transaction.hpp:108-119 | a run after which two threads, each with a transaction open and inside begin_transaction on the other's latch, are both blocked |
| AtomicTransactions.CommittedOnceBetweenResets | include/asioex/basic_transfer_latch.hpp:42-52 | each latch is committed at most once between resets |
| AtomicTransactions.NoHalfCommit | include/asioex/impl/transaction.hpp:53-54 | after a commit anyone who begins on any of its latches is denied until that latch is reset |
| ValueChannel.AtomicDeliver | test/transactions.cpp:157-170 | the value is delivered exactly if the latch was open, and otherwise left with the caller |
| ValueChannel.Channel.TrySend | test/transactions.cpp:303-328 | the walk serves the first parked delivery with an open latch, else queues, else refuses; all other waiters, latches and values are untouched |
| ChannelSpec.EachLatchReceivesAtMostOnce | test/transactions.cpp:309-318 | over any sends on any channels sharing latches, and any commits by others, each latch's group receives at most one value, only if the latch was open and nobody else commits it; exactly the latches served or committed elsewhere become committed |
| ChannelWalks.WalksAreSends | test/transactions.cpp:303-328 | however the offers of walks on different channels and the commits of others interleave, the world goes through the sends in the order of their last offers |
| ChannelWalks.EachCallIsOneSend | test/transactions.cpp:303-328 | each call of try_send takes effect once, in the order of the calls on its channel, unless it is still under way |
| ChannelWalks.WalkBegins | test/transactions.cpp:303-306 | try_send can be called on any channel that no other call is using |
| ChannelWalks.WalkEnds | test/transactions.cpp:306-328 | it returns after at most one offer for each waiter and one step more |
| ChannelWalks.EachLatchReceivesAtMostOnce | test/transactions.cpp:309-318 | each latch's group receives at most one value even while walks interleave |
| ChannelSpec.ValuesAreConserved | test/transactions.cpp:303-328 | every accepted value is delivered once or queued, in its channel, and the queue stays within its capacity |
| ChannelSpec.OtherWaitersKeepTheirOrder | test/transactions.cpp:309-318 | the waiters left on a channel are those not served, in their original order |
| ChannelSpec.NoOvertaking | test/transactions.cpp:303-328 | no value is delivered to a waiter while an earlier value of the channel is queued |
| ChannelSpec.FirstOpenWaiterIsServed | test/transactions.cpp:303-318 | at any point of any run, a send on a channel with an open waiter is received by the first such waiter, whose latch is then committed, and changes nothing else |
| ChannelSpec.OtherwiseQueuedOrRefused | test/transactions.cpp:320-327 | with no open waiter the value is queued, or refused without effect exactly when the queue is full |
| ChannelSpec.RefusedIff | test/transactions.cpp:303-328 | for every channel, closed or not, a send is refused if and only if no waiter is open and the queue is full |
| ChannelSpec.ClosedRefusesOnlyWhenFull | test/transactions.cpp:260-288 | closing does not change whether a value is refused: exactly if no waiter can take it and the queue is full |
| ChannelSpec.ClosedChannelAccepts | test/transactions.cpp:260-288 | a closed channel that accepts a value |
| SharedLatches.Send | test/transactions.cpp:303-328 | among any channels whose deliveries share latches, try_send on one is that step of the world: the same latches, queues, lists and received values |
| LatchedRead.AtomicReadOp.Resume | include/asioex/impl/async_read_some.hpp:40-72 | a denial, a failed wait, a failed read, a read that would block and a successful read each end as they should: with their own error and nothing read, waiting with the latch still open, or with the bytes read; the mutex ends unlocked and the blocking mode restored |
| SharedLatches.WakeRead | include/asioex/impl/async_read_some.hpp:40-72 | among any reads that share a latch, a pass of one read is that step of the race and leaves the others alone |
| ReadSpec.RaceIsSafe | include/asioex/impl/async_read_some.hpp:42-71 | in every race for one latch it is committed by one party at most, and by one exactly once it is committed; a reader takes bytes only by being that party, and all bytes are accounted for in order |
| ReadSpec.BlockedPassChangesNothing | include/asioex/impl/async_read_some.hpp:63-68 | in every race a pass that would block on its read changes nothing: the latch stays open and the read goes on waiting |
| ReadSpec.OtherPassCompletes | include/asioex/impl/async_read_some.hpp:47-71 | any other pass completes its read alone and leaves the latch committed: with a denial, else the error of the wait, else that of the read, else all the bytes that arrived and fit |
| ReadSpec.NobodyReportsWouldBlock | include/asioex/impl/async_read_some.hpp:63-68 | no read ever completes with would_block, if no wait reports it |
| ReadSpec.ArrivedBytesWait | include/asioex/impl/async_read_some.hpp:60-62 | bytes that arrive can be read after those that arrived before, by that reader alone |
| ReadSpec.OthersWinIfOpen | include/asioex/basic_transfer_latch.hpp:69-76 | another committer wins the race if and only if the latch was open |
| ReadSpec.DeniedReadTakesNothing | include/asioex/impl/async_read_some.hpp:47-52 | a read that did not win leaves every byte in the stream |
| ExpandingCircularBuffer.Buffer.Grow | filing-cabinet/expanding_circular_buffer.hpp:65-97 | doubling keeps the contents for both layouts, and fails without effect if the capacity cannot double |
| ExpandingCircularBuffer.Buffer.FullIsSplit | filing-cabinet/expanding_circular_buffer.hpp:75-92 | in a full buffer the front is the back, so the branch for the unsplit layout is not taken by push |
| ExpandingCircularBuffer.Buffer.Push | filing-cabinet/expanding_circular_buffer.hpp:22-36 | appends to the sequence across wrap-around and growth or changes nothing; storage is regrown, copying each element, exactly when the buffer is full; all copies stay under twice the pushes and the capacity under twice the largest size there has been, or 16; a push onto fewer than 2^63 elements succeeds, and storage goes from nothing to 16 and doubles from then on |
| ExpandingCircularBuffer.Buffer.Pop | filing-cabinet/expanding_circular_buffer.hpp:38-47 | removes and returns the first element of the sequence and leaves the largest size so far |
| CopySpec.EveryRunIsCounted | include/asioex/copy.hpp:20-54 | the wrapping counter is the source completions less one, and the sink is offered a prefix of what the source yielded, in order |
| CopySpec.ReportedCount | include/asioex/copy.hpp:31-54 | the count reported is the number of items sunk if and only if the loop was not ended by a cancellation noticed after the sink succeeded, when it is one fewer |
| CopySpec.CancelledCountFallsShort | include/asioex/copy.hpp:45-54 | a run that sinks one item and reports none |
| CopySpec.SourceCompletion | include/asioex/copy.hpp:31-43 | in every run a completion of the source ends the loop if and only if it carries an error, which is reported, or a terminal cancellation was requested, reported as operation_aborted; otherwise its item goes to the sink |
| CopySpec.SinkCompletion | include/asioex/copy.hpp:45-54 | a completion of the sink ends the loop if and only if it carries an error, which is reported, or any cancellation was requested, reported as operation_aborted; otherwise the source is asked again |
| CopySpec.ShortRunsCountPlainly | include/asioex/copy.hpp:20-54 | in runs of fewer than 2^64 events the count reported is the plain number of items sunk, less one if a cancellation after the sink ended the loop |
| CopyLoop.AsyncCopyOp.OnSource | include/asioex/copy.hpp:31-43 | one specification step of a source completion |
| CopyLoop.AsyncCopyOp.OnSink | include/asioex/copy.hpp:45-54 | one specification step of a sink completion |

## Left out

- Asio itself: composed-operation plumbing, associated executors and allocators, work guards, deferred tokens, exceptions from allocation. They are the task queue and the identifiers described above.
- AsyncSemaphore.Semaphore.Release: the count is unbounded, because incrementing it past the largest int is undefined in the original. The circular buffer's 64-bit capacity limit and the copy loop's wrap-around are modelled.
- AsyncSemaphore.Semaphore.AsyncAcquire: every handler has a connected cancellation slot; without one an operation is merely never cancelled, which the runs include.
- AsyncSemaphore.Semaphore.Complete: the wait operation's memory is not freed; after completion it is in no ring and no slot.
- Destroying a mutex or condition variable: with a resume still queued, or with an async_guard parked, whose handler would be given a guard for a mutex that is gone (include/asioex/mutex.hpp:142).
- LockGuards.ProgramDrivesRuns: the mutexes of a guard program are used through guards alone; bare lock, try_lock and unlock calls on them are not mixed in.
- null_mutex: transactions that overlap on one latch with a lock that does nothing. The exclusion results are for real mutexes.
- The order in which std::lock acquires two mutexes and how it backs off; calling it with one latch twice.
- How parked deliveries get onto a channel: the original has no receive operation, so a channel starts with any list of them.
- Real sockets and timers: one non-blocking read is a step whose answer is an input.
- async, async_op, bind_lifetime, tick_state, redirect_cancellation, for_: template dispatch and thin adapters.
