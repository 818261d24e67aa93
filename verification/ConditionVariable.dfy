/**
 The condition variable as an object over the asynchronous semaphore, proved
 like the mutex: one specification step for each method.
*/
module ConditionVariable {
  import opened Sequences
  import opened Tasks
  import opened ComposedWait
  import opened AsyncSemaphore
  import opened Waiting
  import Spec = ConditionSpec

  class ConditionVariable {
    const semaphore: Semaphore
    /** The waits that have a predicate. */
    var predicated: set<OpId>
    /** did_suspend of each wait; a wait without predicate suspends at once. */
    var suspended: set<OpId>
    /** The completion handlers that have run. */
    var done: seq<Completion>

    ghost predicate Shows(s: Spec.State)
      reads this, semaphore, semaphore.ring, semaphore.exec
    {
      && Shown(s.loop, semaphore, done) && predicated == s.predicated
      && Suspended(s.loop, s.started, suspended)
    }

    constructor ()
      ensures Shows(Spec.Start())
    {
      var exec := new Executor();
      semaphore := new Semaphore(exec, 0);
      predicated, suspended, done := {}, {}, [];
    }

    /** Initiates a wait without predicate. */
    method AsyncWait(op: OpId, ghost s: Spec.State)
      requires Shows(s) && op == s.started
      modifies this, semaphore, semaphore.ring, semaphore.exec
      ensures Shows(Spec.Step(s, Spec.WaitCall))
    {
      SuspendedEnter(s.loop, op, false, suspended);
      suspended := suspended + {op};
      semaphore.AsyncAcquire(op);
    }

    /** The body of a wait with predicate; holds is what the predicate evaluates to. */
    method Invoke(op: OpId, ec: ErrorCode, holds: bool, ghost s: Loop)
      requires Shown(s, semaphore, done) && op !in s.sem.waiters
      modifies `done, `suspended, semaphore, semaphore.ring, semaphore.exec
      ensures Shown(Invoked(s, op, ec, holds, op !in old(suspended)), semaphore, done)
      ensures suspended == if ec == Success && !holds then old(suspended) + {op} else old(suspended)
    {
      if ec != Success {
        done := done + [Completion(op, ec)];
      } else if holds {
        if op in suspended {
          done := done + [Completion(op, ec)];
        } else {
          semaphore.exec.Post(Finish(op));
        }
      } else {
        suspended := suspended + {op};
        semaphore.AsyncAcquire(op);
      }
    }

    /** Initiates a wait with predicate. */
    method AsyncWaitUntil(op: OpId, holds: bool, ghost s: Spec.State)
      requires Shows(s) && op == s.started
      modifies this, semaphore, semaphore.ring, semaphore.exec
      ensures Shows(Spec.Step(s, Spec.PredicateWaitCall(holds)))
    {
      SuspendedEnter(s.loop, op, holds, suspended);
      predicated := predicated + {op};
      Invoke(op, Success, holds, s.loop);
    }

    method NotifyOne(ghost s: Spec.State)
      requires Shows(s)
      modifies this, semaphore, semaphore.ring, semaphore.exec
      ensures Shows(Spec.Step(s, Spec.NotifyOneCall))
    {
      SuspendedRelease(s.loop, s.started, suspended);
      semaphore.Release();
    }

    method NotifyAll(ghost s: Spec.State)
      requires Shows(s)
      modifies this, semaphore, semaphore.ring, semaphore.exec
      ensures Shows(Spec.Step(s, Spec.NotifyAllCall))
    {
      SuspendedReleaseAll(s.loop, s.started, suspended);
      var woken := semaphore.ReleaseAll();
    }

    /** Emits a cancellation signal on the slot of a wait; only a wait with predicate is composed. */
    method Emit(op: OpId, kind: CancellationType, ghost s: Spec.State)
      requires Shows(s)
      modifies this, semaphore, semaphore.ring, semaphore.exec
      ensures Shows(if kind.terminal || (op !in s.predicated && (kind.partial || kind.total))
                    then Spec.Step(s, Spec.CancelCall(op)) else s)
      ensures Aborts(op, kind.terminal || (op !in s.predicated && (kind.partial || kind.total)),
                     old(semaphore.Model().waiters), semaphore.Model().waiters,
                     old(semaphore.exec.queue), semaphore.exec.queue)
    {
      SuspendedCancel(s.loop, s.started, op, suspended);
      semaphore.Emit(op, if op in predicated then PassedOn(kind) else kind);
    }

    /** Runs a task that the executor has taken from its queue. */
    method Dispatch(t: Task, holds: bool, ghost rest: Loop)
      requires Shown(rest, semaphore, done) && t.op !in rest.sem.waiters
      requires t.Resume? ==> t.op in suspended
      modifies `done, `suspended, semaphore, semaphore.ring, semaphore.exec
      ensures Shown(Dispatched(rest, t, t.op !in predicated || holds), semaphore, done)
      ensures suspended == old(suspended)
    {
      match t {
        case Finish(op) => done := done + [Completion(op, Success)];
        case Resume(op, ec) =>
          if op in predicated {
            assert suspended + {op} == suspended;
            Invoke(op, ec, holds, rest);
          } else {
            done := done + [Completion(op, ec)];
          }
      }
    }

    /** A turn of the executor. */
    method RunTask(i: nat, holds: bool, ghost s: Spec.State)
      requires Shows(s) && i < |semaphore.exec.queue|
      modifies this, semaphore, semaphore.ring, semaphore.exec
      ensures Shows(Spec.Step(s, Spec.TurnCall(i, holds)))
    {
      ghost var ready := Spec.MayPass(s, s.loop.tasks[i].op, holds);
      SuspendedTurn(s.loop, s.started, i, ready, suspended);
      TurnDispatches(s.loop, i, ready);
      Spec.TurnParts(s, i, holds);
      var t := semaphore.exec.Take(i);
      Dispatch(t, holds, s.loop.(tasks := DropAt(s.loop.tasks, i)));
    }
  }
}
