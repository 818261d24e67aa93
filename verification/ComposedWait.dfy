/**
 The composed operation that both the mutex and the condition variable are
 built on: enter, test whether the operation may pass, otherwise suspend on the
 semaphore and test again when resumed.
*/
module ComposedWait {
  import opened Sequences
  import opened Tasks
  import opened SemaphoreSpec

  /** passed and grants record history: the operations whose own invocation found
      that they may pass, and the number of permits the semaphore has handed out. */
  datatype Loop = Loop(sem: Sem, tasks: seq<Task>, done: seq<Completion>, passed: seq<OpId>, grants: nat)

  function Start(initialCount: nat): Loop {
    Loop(Sem(initialCount, []), [], [], [], 0)
  }

  function Apply(s: Loop, e: Effect): Loop {
    s.(sem := e.sem, tasks := s.tasks + e.posted, grants := s.grants + |Resumed(e.posted, Success)|)
  }

  function Suspend(s: Loop, op: OpId): Loop {
    Apply(s, Acquire(s.sem, op))
  }

  /** The first invocation: an operation that may pass posts its own completion. */
  function Enter(s: Loop, op: OpId, ready: bool): Loop {
    if ready then s.(tasks := s.tasks + [Finish(op)], passed := s.passed + [op])
    else Suspend(s, op)
  }

  /** The executor runs the task at position i; ready is what the test gives if it is made. */
  function Turn(s: Loop, i: nat, ready: bool): Loop
    requires i < |s.tasks|
  {
    var rest := s.(tasks := DropAt(s.tasks, i));
    match s.tasks[i]
    case Finish(op) => rest.(done := s.done + [Completion(op, Success)])
    case Resume(op, OperationAborted) => rest.(done := s.done + [Completion(op, OperationAborted)])
    case Resume(op, Success) =>
      if ready then rest.(done := s.done + [Completion(op, Success)], passed := s.passed + [op])
      else Suspend(rest, op)
  }

  // ----- What every step keeps

  /** Each operation started is in one place: parked, queued or completed. */
  ghost predicate Placed(s: Loop, started: nat) {
    forall op: OpId :: Places(s, op) == if op < started then 1 else 0
  }

  function Places(s: Loop, op: OpId): nat {
    Times(s.sem.waiters, op) + Times(Ops(s.tasks), op) + Times(CompletedOps(s.done), op)
  }

  /** The successful completions, made or queued, are those of the operations that passed. */
  ghost predicate PassedOnly(s: Loop) {
    forall op: OpId :: Times(Completed(s.done, Success), op) + Times(Finishing(s.tasks), op) == Times(s.passed, op)
  }

  ghost predicate Good(s: Loop, started: nat) {
    Inv(s.sem) && Placed(s, started) && PassedOnly(s)
  }

  /** An effect of the semaphore that keeps hold of the operations and posts only
      resumes changes nothing but where they are. */
  lemma ApplyKeeps(s: Loop, e: Effect, added: seq<OpId>)
    requires forall x :: Held(e, x) == Times(s.sem.waiters, x) + Times(added, x)
    requires Finishing(e.posted) == []
    ensures var s' := Apply(s, e);
      && (forall x :: Places(s', x) == Places(s, x) + Times(added, x))
      && Finishing(s'.tasks) == Finishing(s.tasks)
      && Resumed(s'.tasks, Success) == Resumed(s.tasks, Success) + Resumed(e.posted, Success)
  {
    OpsAppend(s.tasks, e.posted);
    TimesAppend(Ops(s.tasks), Ops(e.posted));
    FinishingAppend(s.tasks, e.posted);
    ResumedAppend(s.tasks, e.posted, Success);
    forall x ensures Places(Apply(s, e), x) == Places(s, x) + Times(added, x) {
      assert Held(e, x) == Times(s.sem.waiters, x) + Times(added, x);
    }
  }

  lemma SuspendKeeps(s: Loop, op: OpId)
    requires Inv(s.sem)
    ensures var s' := Suspend(s, op);
      && Inv(s'.sem)
      && (forall x :: Places(s', x) == Places(s, x) + if x == op then 1 else 0)
      && Finishing(s'.tasks) == Finishing(s.tasks)
      && s'.sem.count + s'.grants == s.sem.count + s.grants
  {
    AcquireHeld(s.sem, op);
    TimesOne(op);
    OneResume(op, Success, Success);
    ApplyKeeps(s, Acquire(s.sem, op), [op]);
  }

  lemma PlacedMore(s: Loop, s': Loop, started: nat)
    requires Placed(s, started) && forall x :: Places(s', x) == Places(s, x) + if x == started then 1 else 0
    ensures Placed(s', started + 1)
  {
    forall x: OpId ensures Places(s', x) == if x < started + 1 then 1 else 0 {
      assert Places(s, x) == if x < started then 1 else 0;
    }
  }

  lemma EnterPasses(s: Loop, started: nat)
    requires Good(s, started)
    ensures var s' := Enter(s, started, true);
      Good(s', started + 1) && |Finishing(s'.tasks)| == |Finishing(s.tasks)| + 1
  {
    var s' := Enter(s, started, true);
    AddFinish(s.tasks, started);
    PlacedMore(s, s', started);
    TimesAppend(Finishing(s.tasks), [started]);
    TimesAppend(s.passed, [started]);
    forall x: OpId
      ensures Times(Completed(s'.done, Success), x) + Times(Finishing(s'.tasks), x) == Times(s'.passed, x)
    {
      assert Times(Completed(s.done, Success), x) + Times(Finishing(s.tasks), x) == Times(s.passed, x);
    }
  }

  lemma EnterKeeps(s: Loop, started: nat, ready: bool)
    requires Good(s, started)
    ensures Good(Enter(s, started, ready), started + 1)
    ensures var s' := Enter(s, started, ready);
      && |Finishing(s'.tasks)| == |Finishing(s.tasks)| + (if ready then 1 else 0)
      && s'.sem.count + s'.grants == s.sem.count + s.grants
  {
    if ready {
      EnterPasses(s, started);
    } else {
      SuspendKeeps(s, started);
      PlacedMore(s, Suspend(s, started), started);
    }
  }

  lemma ReleaseKeeps(s: Loop, started: nat)
    requires Good(s, started)
    ensures var s' := Apply(s, Release(s.sem));
      && Good(s', started)
      && Finishing(s'.tasks) == Finishing(s.tasks)
      && (s.sem.waiters != [] ==> |Resumed(s'.tasks, Success)| == |Resumed(s.tasks, Success)| + 1)
      && s'.sem.count + s'.grants == s.sem.count + s.grants + 1
  {
    ReleaseHeld(s.sem);
    if s.sem.waiters != [] {
      OneResume(s.sem.waiters[0], Success, Success);
    }
    ApplyKeeps(s, Release(s.sem), []);
  }

  lemma ReleaseAllKeeps(s: Loop, started: nat)
    requires Good(s, started)
    ensures var s' := Apply(s, ReleaseAll(s.sem));
      Good(s', started) && s'.sem.count + s'.grants == s.sem.count + s.grants + |s.sem.waiters|
  {
    WakeHeld(s.sem, Success);
    WakeResumes(s.sem.waiters, Success, Success);
    ApplyKeeps(s, ReleaseAll(s.sem), []);
  }

  lemma CancelKeeps(s: Loop, started: nat, op: OpId)
    requires Good(s, started)
    ensures var s' := Apply(s, Cancel(s.sem, op));
      && Good(s', started)
      && s'.sem.count == s.sem.count && s'.grants == s.grants
      && Resumed(s'.tasks, Success) == Resumed(s.tasks, Success)
      && Finishing(s'.tasks) == Finishing(s.tasks)
      && (s.sem.waiters == [] ==> s'.sem.waiters == [])
  {
    if op in s.sem.waiters {
      assert Places(s, op) <= 1;
      CancelHeld(s.sem, op);
      OneResume(op, OperationAborted, Success);
      ApplyKeeps(s, Cancel(s.sem, op), []);
    } else {
      assert s.tasks + [] == s.tasks;
    }
  }

  lemma QueuedIsNotParked(s: Loop, started: nat, i: nat)
    requires Placed(s, started) && i < |s.tasks|
    ensures s.tasks[i].op < started && s.tasks[i].op !in s.sem.waiters
  {
    var op := s.tasks[i].op;
    assert Ops(s.tasks)[i] == op && Places(s, op) == if op < started then 1 else 0;
    TimesIn(Ops(s.tasks), op);
    TimesIn(s.sem.waiters, op);
  }

  ghost predicate TurnBalance(s: Loop, s': Loop, started: nat, i: nat)
    requires i < |s.tasks|
  {
    && Good(s', started)
    && s'.sem.count + s'.grants == s.sem.count + s.grants
    && |Finishing(s'.tasks)| == |Finishing(s.tasks)| - if s.tasks[i].Finish? then 1 else 0
  }

  lemma TurnSuspends(s: Loop, started: nat, i: nat)
    requires Good(s, started) && i < |s.tasks| && s.tasks[i].Resume? && s.tasks[i].ec == Success
    ensures TurnBalance(s, Turn(s, i, false), started, i)
  {
    var op, rest := s.tasks[i].op, s.(tasks := DropAt(s.tasks, i));
    TakeTask(s.tasks, i);
    SuspendKeeps(rest, op);
    forall x: OpId ensures Places(Suspend(rest, op), x) == if x < started then 1 else 0 {
      assert Places(s, x) == Places(rest, x) + if x == op then 1 else 0;
    }
  }

  ghost predicate Completes(s: Loop, i: nat, ready: bool) {
    i < |s.tasks| && (s.tasks[i] == Resume(s.tasks[i].op, Success) ==> ready)
  }

  lemma CompletesPlaced(s: Loop, started: nat, i: nat, ready: bool)
    requires Placed(s, started) && Completes(s, i, ready)
    ensures Placed(Turn(s, i, ready), started)
  {
    var s' := Turn(s, i, ready);
    TakeTask(s.tasks, i);
    AddCompletion(s.done, s'.done[|s.done|]);
    forall x: OpId ensures Places(s', x) == if x < started then 1 else 0 {
      assert Places(s, x) == if x < started then 1 else 0;
    }
  }

  lemma CompletesPassed(s: Loop, i: nat, ready: bool)
    requires PassedOnly(s) && Completes(s, i, ready)
    ensures PassedOnly(Turn(s, i, ready))
  {
    var s', op := Turn(s, i, ready), s.tasks[i].op;
    TakeFinish(s.tasks, i);
    AddCompletion(s.done, s'.done[|s.done|]);
    TimesAppend(Completed(s.done, Success), [op]);
    TimesAppend(s.passed, [op]);
    TimesOne(op);
  }

  /** Every turn keeps the accounts, whether it completes, parks or takes a leftover permit. */
  lemma TurnKeeps(s: Loop, started: nat, i: nat, ready: bool)
    requires Good(s, started) && i < |s.tasks|
    ensures TurnBalance(s, Turn(s, i, ready), started, i)
  {
    if s.tasks[i].Resume? && s.tasks[i].ec == Success && !ready {
      TurnSuspends(s, started, i);
    } else {
      TakeFinish(s.tasks, i);
      CompletesPlaced(s, started, i, ready);
      CompletesPassed(s, i, ready);
    }
  }

  /** The work left for the executor if nothing calls in from outside: leftover permits and queued tasks. */
  function Work(s: Loop): int {
    s.sem.count + |s.tasks|
  }

  /** Every turn does exactly one unit of work, whatever the test gives. */
  lemma TurnWorks(s: Loop, i: nat, ready: bool)
    requires i < |s.tasks|
    ensures Work(Turn(s, i, ready)) == Work(s) - 1
  {
  }
}
