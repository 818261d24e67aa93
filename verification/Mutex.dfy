/**
 The mutex as an object over the asynchronous semaphore.  Every method takes the
 specification state that the object shows, and leaves the object showing the
 state one specification step later.
*/
module Mutex {
  import opened Sequences
  import opened Tasks
  import opened ComposedWait
  import opened AsyncSemaphore
  import opened Waiting
  import Spec = MutexSpec

  class Mutex {
    const semaphore: Semaphore
    var locked: bool
    /** did_suspend of the handler of each lock operation. */
    var suspended: set<OpId>
    /** The completion handlers that have run. */
    var done: seq<Completion>

    ghost predicate Shows(s: Spec.State)
      reads this, semaphore, semaphore.ring, semaphore.exec
    {
      Shown(s.loop, semaphore, done) && locked == s.locked && Suspended(s.loop, s.started, suspended)
    }

    constructor ()
      ensures Shows(Spec.Start())
    {
      var exec := new Executor();
      semaphore := new Semaphore(exec, Spec.INITIAL_COUNT);
      locked := false;
      suspended := {};
      done := [];
    }

    /** The body of the composed operation, entered first by AsyncLock and again on every resume. */
    method Invoke(op: OpId, ec: ErrorCode, ghost s: Loop)
      requires Shown(s, semaphore, done) && op !in s.sem.waiters
      modifies this, semaphore, semaphore.ring, semaphore.exec
      ensures Shown(Invoked(s, op, ec, !old(locked), op !in old(suspended)), semaphore, done)
      ensures locked == (old(locked) || ec == Success)
      ensures suspended == if ec == Success && old(locked) then old(suspended) + {op} else old(suspended)
    {
      if ec != Success {
        done := done + [Completion(op, ec)];
      } else if !locked {
        locked := true;
        if op in suspended {
          done := done + [Completion(op, ec)];
        } else {
          semaphore.exec.Post(Finish(op));
        }
      } else {
        suspended := suspended + {op};
        semaphore.AsyncAcquire(op);
      }
    }

    method AsyncLock(op: OpId, ghost s: Spec.State)
      requires Shows(s) && op == s.started
      modifies this, semaphore, semaphore.ring, semaphore.exec
      ensures Shows(Spec.Step(s, Spec.LockCall))
    {
      SuspendedEnter(s.loop, op, !s.locked, suspended);
      Invoke(op, Success, s.loop);
    }

    method Unlock(ghost s: Spec.State, ghost who: Spec.Holder)
      requires Shows(s)
      modifies this, semaphore, semaphore.ring, semaphore.exec
      ensures Shows(Spec.Step(s, Spec.UnlockCall(who)))
    {
      SuspendedRelease(s.loop, s.started, suspended);
      locked := false;
      semaphore.Release();
    }

    /** Returns whether the mutex was locked before: false means that the caller now holds it. */
    method TryLock(ghost s: Spec.State) returns (was: bool)
      requires Shows(s)
      modifies this
      ensures Shows(Spec.Step(s, Spec.TryLockCall))
      ensures !was <==> Spec.Step(s, Spec.TryLockCall).inside == s.inside + multiset{Spec.ByTry}
    {
      was := locked;
      locked := true;
      assert |s.inside + multiset{Spec.ByTry}| == |s.inside| + 1;
    }

    /** Emits a cancellation signal on the slot of a lock operation. */
    method Emit(op: OpId, kind: CancellationType, ghost s: Spec.State)
      requires Shows(s)
      modifies this, semaphore, semaphore.ring, semaphore.exec
      ensures Shows(if kind.terminal then Spec.Step(s, Spec.CancelCall(op)) else s)
      ensures Aborts(op, kind.terminal, old(semaphore.Model().waiters), semaphore.Model().waiters,
                     old(semaphore.exec.queue), semaphore.exec.queue)
    {
      SuspendedCancel(s.loop, s.started, op, suspended);
      semaphore.Emit(op, PassedOn(kind));
    }

    /** Runs a task that the executor has taken from its queue. */
    method Dispatch(t: Task, ghost rest: Loop)
      requires Shown(rest, semaphore, done) && t.op !in rest.sem.waiters
      requires t.Resume? ==> t.op in suspended
      modifies this, semaphore, semaphore.ring, semaphore.exec
      ensures Shown(Dispatched(rest, t, !old(locked)), semaphore, done)
      ensures locked == (old(locked) || t == Resume(t.op, Success)) && suspended == old(suspended)
    {
      match t {
        case Finish(op) => done := done + [Completion(op, Success)];
        case Resume(op, ec) =>
          assert suspended + {op} == suspended;
          Invoke(op, ec, rest);
      }
    }

    /** A turn of the executor. */
    method RunTask(i: nat, ghost s: Spec.State)
      requires Shows(s) && i < |semaphore.exec.queue|
      modifies this, semaphore, semaphore.ring, semaphore.exec
      ensures Shows(Spec.Step(s, Spec.TurnCall(i)))
    {
      SuspendedTurn(s.loop, s.started, i, !s.locked, suspended);
      TurnDispatches(s.loop, i, !s.locked);
      Spec.TurnParts(s, i);
      var t := semaphore.exec.Take(i);
      Dispatch(t, s.loop.(tasks := DropAt(s.loop.tasks, i)));
    }
  }
}
