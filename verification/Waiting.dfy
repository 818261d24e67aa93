/**
 How the objects built on the semaphore show a loop of the specification.
*/
module Waiting {
  import opened Sequences
  import opened Tasks
  import opened SemaphoreSpec
  import opened ComposedWait
  import opened AsyncSemaphore

  /** What a composed operation passes on of a cancellation signal, by default: the terminal kind only. */
  function PassedOn(kind: CancellationType): CancellationType {
    CancellationType(kind.terminal, false, false)
  }

  /** The suspended flag is set for the operations the semaphore knows, and for
      none that is yet to start. */
  ghost predicate Suspended(s: Loop, started: nat, suspended: set<OpId>) {
    Good(s, started) && Flagged(s, suspended) && forall op :: op in suspended ==> op < started
  }

  ghost predicate Flagged(s: Loop, suspended: set<OpId>) {
    && (forall op :: op in s.sem.waiters ==> op in suspended)
    && (forall i :: 0 <= i < |s.tasks| && s.tasks[i].Resume? ==> s.tasks[i].op in suspended)
  }

  /** One invocation of the composed operation's body; first tells whether it has suspended before. */
  function Invoked(s: Loop, op: OpId, ec: ErrorCode, ready: bool, first: bool): Loop {
    if ec != Success then s.(done := s.done + [Completion(op, ec)])
    else if !ready then Suspend(s, op)
    else if first then s.(tasks := s.tasks + [Finish(op)], passed := s.passed + [op])
    else s.(done := s.done + [Completion(op, Success)], passed := s.passed + [op])
  }

  function Dispatched(rest: Loop, t: Task, ready: bool): Loop {
    if t.Finish? then rest.(done := rest.done + [Completion(t.op, Success)])
    else Invoked(rest, t.op, t.ec, ready, false)
  }

  lemma TurnDispatches(s: Loop, i: nat, ready: bool)
    requires i < |s.tasks|
    ensures Turn(s, i, ready) == Dispatched(s.(tasks := DropAt(s.tasks, i)), s.tasks[i], ready)
  {
  }

  /** An effect of the semaphore concerns suspended operations only. */
  lemma FlaggedApply(s: Loop, e: Effect, suspended: set<OpId>, more: set<OpId>)
    requires Flagged(s, suspended)
    requires forall op :: op in e.sem.waiters ==> op in suspended + more
    requires forall i :: 0 <= i < |e.posted| ==> e.posted[i].op in suspended + more
    ensures Flagged(Apply(s, e), suspended + more)
  {
  }

  lemma SuspendedEnter(s: Loop, started: nat, ready: bool, suspended: set<OpId>)
    requires Suspended(s, started, suspended)
    ensures started !in s.sem.waiters && started !in suspended
    ensures Suspended(Enter(s, started, ready), started + 1, if ready then suspended else suspended + {started})
  {
    EnterKeeps(s, started, ready);
    assert Places(s, started) == 0;
    TimesIn(s.sem.waiters, started);
    FlaggedEnter(s, started, ready, suspended);
  }

  lemma FlaggedEnter(s: Loop, op: OpId, ready: bool, suspended: set<OpId>)
    requires Flagged(s, suspended)
    ensures Flagged(Enter(s, op, ready), if ready then suspended else suspended + {op})
  {
    if !ready {
      FlaggedApply(s, Acquire(s.sem, op), suspended, {op});
    }
  }

  lemma FlaggedTurn(s: Loop, i: nat, ready: bool, suspended: set<OpId>)
    requires Flagged(s, suspended) && i < |s.tasks|
    ensures Flagged(Turn(s, i, ready), suspended)
  {
    var s' := Turn(s, i, ready);
    assert forall j :: 0 <= j < |s.tasks| - 1 ==> s'.tasks[j] == s.tasks[if j < i then j else j + 1];
  }

  lemma SuspendedTurn(s: Loop, started: nat, i: nat, ready: bool, suspended: set<OpId>)
    requires Suspended(s, started, suspended) && i < |s.tasks|
    ensures s.tasks[i].op !in s.sem.waiters && (s.tasks[i].Resume? ==> s.tasks[i].op in suspended)
    ensures Suspended(Turn(s, i, ready), started, suspended)
  {
    TurnKeeps(s, started, i, ready);
    FlaggedTurn(s, i, ready, suspended);
    QueuedIsNotParked(s, started, i);
  }

  lemma SuspendedRelease(s: Loop, started: nat, suspended: set<OpId>)
    requires Suspended(s, started, suspended)
    ensures Suspended(Apply(s, Release(s.sem)), started, suspended)
  {
    ReleaseKeeps(s, started);
    FlaggedApply(s, Release(s.sem), suspended, {});
    assert suspended + {} == suspended;
  }

  lemma SuspendedReleaseAll(s: Loop, started: nat, suspended: set<OpId>)
    requires Suspended(s, started, suspended)
    ensures Suspended(Apply(s, ReleaseAll(s.sem)), started, suspended)
  {
    ReleaseAllKeeps(s, started);
    FlaggedApply(s, ReleaseAll(s.sem), suspended, {});
    assert suspended + {} == suspended;
  }

  /** A cancellation posts, and leaves parked, only what was parked. */
  lemma CancelConcernsParked(s: Sem, op: OpId)
    requires Times(s.waiters, op) <= 1
    ensures forall x :: x in Cancel(s, op).sem.waiters ==> x in s.waiters
    ensures forall i :: 0 <= i < |Cancel(s, op).posted| ==> Cancel(s, op).posted[i].op in s.waiters
  {
    CancelHeld(s, op);
  }

  lemma FlaggedCancel(s: Loop, op: OpId, suspended: set<OpId>)
    requires Flagged(s, suspended) && Times(s.sem.waiters, op) <= 1
    ensures Flagged(Apply(s, Cancel(s.sem, op)), suspended)
  {
    CancelConcernsParked(s.sem, op);
    FlaggedApply(s, Cancel(s.sem, op), suspended, {});
    assert suspended + {} == suspended;
  }

  lemma SuspendedCancel(s: Loop, started: nat, op: OpId, suspended: set<OpId>)
    requires Suspended(s, started, suspended)
    ensures Suspended(Apply(s, Cancel(s.sem, op)), started, suspended)
  {
    CancelKeeps(s, started, op);
    assert Places(s, op) <= 1;
    FlaggedCancel(s, op, suspended);
  }

  /** The parts of a loop that are state rather than history. */
  ghost predicate Shown(s: Loop, semaphore: Semaphore, done: seq<Completion>)
    reads semaphore, semaphore.ring, semaphore.exec
  {
    && semaphore.Valid() && semaphore.Model() == s.sem
    && semaphore.exec.queue == s.tasks && done == s.done
  }
}
