/**
 What each operation of the asynchronous semaphore does to its state, as
 functions: the permit count, the parked operations in arrival order, and the
 handlers posted.  Module AsyncSemaphore proves the class over the intrusive
 ring against these functions; module SemaphoreRuns proves what whole runs keep.
*/
module SemaphoreSpec {
  import opened Sequences
  import opened Tasks

  datatype Sem = Sem(count: int, waiters: seq<OpId>)
  datatype Effect = Effect(sem: Sem, posted: seq<Task>)

  /** Permits are never owed, and are never kept back while an operation waits. */
  ghost predicate Inv(s: Sem) {
    s.count >= 0 && (s.count == 0 || s.waiters == [])
  }

  function Acquire(s: Sem, op: OpId): Effect {
    if s.count != 0 then Effect(s.(count := s.count - 1), [Resume(op, Success)])
    else Effect(s.(waiters := s.waiters + [op]), [])
  }

  function TryAcquire(s: Sem): (Sem, bool) {
    if s.count > 0 then (s.(count := s.count - 1), true) else (s, false)
  }

  function Release(s: Sem): Effect {
    if s.waiters == [] then Effect(s.(count := s.count + 1), [])
    else Effect(s.(waiters := s.waiters[1..]), [Resume(s.waiters[0], Success)])
  }

  function ReleaseAll(s: Sem): Effect {
    Effect(s.(waiters := []), Wake(s.waiters, Success))
  }

  function Cancel(s: Sem, op: OpId): Effect {
    if op in s.waiters then
      Effect(s.(waiters := Without(s.waiters, op)), [Resume(op, OperationAborted)])
    else Effect(s, [])
  }

  function Destroy(s: Sem): Effect {
    Effect(s.(waiters := []), Wake(s.waiters, OperationAborted))
  }

  function Value(s: Sem): int {
    s.count - |s.waiters|
  }

  // No operation gets lost or doubled between the waiting list and the posted handlers.

  /** How often op is parked or posted after e. */
  function Held(e: Effect, op: OpId): nat {
    Times(Ops(e.posted), op) + Times(e.sem.waiters, op)
  }

  lemma AcquireHeld(s: Sem, op: OpId)
    ensures forall x :: Held(Acquire(s, op), x) == Times(s.waiters, x) + if x == op then 1 else 0
  {
    OneResume(op, Success, Success);
    TimesOne(op);
    TimesAppend(s.waiters, [op]);
  }

  lemma ReleaseHeld(s: Sem)
    ensures forall x :: Held(Release(s), x) == Times(s.waiters, x)
  {
    if s.waiters != [] {
      var head, rest := s.waiters[0], s.waiters[1..];
      assert s.waiters == [head] + rest;
      OneResume(head, Success, Success);
      TimesAppend([head], rest);
    }
  }

  lemma WakeHeld(s: Sem, ec: ErrorCode)
    ensures forall x :: Held(Effect(s.(waiters := []), Wake(s.waiters, ec)), x) == Times(s.waiters, x)
  {
    WakeResumes(s.waiters, ec, Success);
    assert forall x: OpId :: Times([], x) == 0;
  }

  lemma CancelHeld(s: Sem, op: OpId)
    requires Times(s.waiters, op) <= 1
    ensures forall x :: Held(Cancel(s, op), x) == Times(s.waiters, x)
    ensures |Cancel(s, op).sem.waiters| + |Cancel(s, op).posted| == |s.waiters|
    ensures forall x :: x in Cancel(s, op).sem.waiters ==> x in s.waiters
  {
    WithoutTimes(s.waiters, op);
    TimesIn(s.waiters, op);
    TimesOne(op);
    OneResume(op, OperationAborted, Success);
    forall x | x in Cancel(s, op).sem.waiters ensures x in s.waiters {
      TimesIn(Cancel(s, op).sem.waiters, x);
      TimesIn(s.waiters, x);
    }
  }
}
