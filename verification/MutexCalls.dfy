/** What the calls on a mutex come to, at any point of any run. */
module MutexCalls {
  import opened Sequences
  import opened Tasks
  import opened SemaphoreSpec
  import opened MutexSpec

  lemma RunTwo(events: seq<Event>, e: Event, f: Event)
    ensures Run(events + [e, f]) == Step(Step(Run(events), e), f)
  {
    RunExtend(events, e);
    RunExtend(events + [e], f);
    assert events + [e, f] == events + [e] + [f];
  }

  lemma LastTask(tasks: seq<Task>, t: Task)
    ensures (tasks + [t])[|tasks|] == t && DropAt(tasks + [t], |tasks|) == tasks
  {
  }

  /** A lock call that finds the mutex free takes it at once, and completes when its
      own handler has had its turn, which only makes it a holder. */
  lemma FreeLockCompletes(events: seq<Event>)
    requires !Run(events).locked
    ensures var s := Run(events);
      var called, done := Run(events + [LockCall]), Run(events + [LockCall, TurnCall(|s.loop.tasks|)]);
      && called.locked && called.acquired == s.acquired + [s.started]
      && called.loop.done == s.loop.done && called.inside == s.inside
      && done.locked && done.acquired == called.acquired
      && done.loop.done == s.loop.done + [Completion(s.started, Success)]
      && done.inside == s.inside + multiset{ByLock(s.started)}
      && done.loop.sem == s.loop.sem && done.loop.tasks == s.loop.tasks
  {
    RunExtend(events, LockCall);
    RunTwo(events, LockCall, TurnCall(|Run(events).loop.tasks|));
    LastTask(Run(events).loop.tasks, Finish(Run(events).started));
  }

  /** A lock call that finds the mutex locked takes nothing and completes nothing. It
      parks last if no permit is left over; a permit left over it uses up, to test once more. */
  lemma ContendedLockWaits(events: seq<Event>)
    requires Run(events).locked
    ensures var s, s' := Run(events), Run(events + [LockCall]);
      && s'.locked && s'.acquired == s.acquired && s'.inside == s.inside && s'.loop.done == s.loop.done
      && (s.loop.sem.count == 0 ==>
            s'.loop.sem.waiters == s.loop.sem.waiters + [s.started] && s'.loop.tasks == s.loop.tasks)
      && (s.loop.sem.count > 0 ==>
            && s'.loop.sem == Sem(s.loop.sem.count - 1, [])
            && s'.loop.tasks == s.loop.tasks + [Resume(s.started, Success)])
  {
    EveryRunIsSafe(events);
    RunExtend(events, LockCall);
  }

  /** try_lock leaves the mutex locked, makes its caller a holder exactly if it was
      free, and neither waits nor disturbs those who do. */
  lemma TryLockNeverWaits(events: seq<Event>)
    ensures var s, s' := Run(events), Run(events + [TryLockCall]);
      && s'.locked && s'.loop == s.loop && s'.acquired == s.acquired
      && (s'.inside == s.inside + multiset{ByTry} <==> !s.locked)
      && (s'.inside == s.inside <==> s.locked)
  {
    RunExtend(events, TryLockCall);
    assert |Run(events).inside + multiset{ByTry}| == |Run(events).inside| + 1;
  }

  /** An unlock frees the mutex and resumes the operation parked longest, last in the
      queue; if nobody is parked it leaves one permit more. */
  lemma UnlockResumesOne(events: seq<Event>, who: Holder)
    ensures var s, s' := Run(events), Run(events + [UnlockCall(who)]);
      && !s'.locked && s'.loop.done == s.loop.done && s'.acquired == s.acquired
      && s'.inside[who] == (if who in s.inside then s.inside[who] - 1 else 0)
      && (s.loop.sem.waiters == [] ==>
            s'.loop.tasks == s.loop.tasks && s'.loop.sem == Sem(s.loop.sem.count + 1, []))
      && (s.loop.sem.waiters != [] ==>
            && s.loop.sem.waiters == [s'.loop.tasks[|s.loop.tasks|].op] + s'.loop.sem.waiters
            && s'.loop.tasks == s.loop.tasks + [Resume(s.loop.sem.waiters[0], Success)])
  {
    RunExtend(events, UnlockCall(who));
  }

  /** A cancelled operation that is parked leaves its place, the others keep theirs,
      and once its handler has had its turn it has completed with operation_aborted,
      without having touched the mutex. */
  lemma CancelAborts(events: seq<Event>, op: OpId)
    requires op in Run(events).loop.sem.waiters
    ensures var s := Run(events);
      var r := Run(events + [CancelCall(op), TurnCall(|s.loop.tasks|)]);
      && op !in r.loop.sem.waiters && r.loop.sem.waiters == Without(s.loop.sem.waiters, op)
      && r.loop.done == s.loop.done + [Completion(op, OperationAborted)]
      && r.locked == s.locked && r.inside == s.inside && r.acquired == s.acquired
      && r.loop.tasks == s.loop.tasks && r.loop.sem.count == s.loop.sem.count
  {
    var s := Run(events);
    RunTwo(events, CancelCall(op), TurnCall(|s.loop.tasks|));
    LastTask(s.loop.tasks, Resume(op, OperationAborted));
    WithoutTimes(s.loop.sem.waiters, op);
    TimesIn(Without(s.loop.sem.waiters, op), op);
  }

  /** A cancellation of an operation that is not parked, be it queued, completed or
      never started, changes nothing. */
  lemma LateCancelIsNoOp(events: seq<Event>, op: OpId)
    requires op !in Run(events).loop.sem.waiters
    ensures Run(events + [CancelCall(op)]) == Run(events)
  {
    RunExtend(events, CancelCall(op));
    assert Run(events).loop.tasks + [] == Run(events).loop.tasks;
  }

  /** A resumed operation completes in its turn, holding the mutex, if the turn finds
      the mutex free; otherwise it completes nothing and waits on. */
  lemma ResumedTurn(events: seq<Event>, i: nat)
    requires i < |Run(events).loop.tasks| && Run(events).loop.tasks[i] == Resume(Run(events).loop.tasks[i].op, Success)
    ensures var s, s' := Run(events), Run(events + [TurnCall(i)]); var op := s.loop.tasks[i].op;
      && s'.locked
      && (!s.locked ==>
            && s'.loop.done == s.loop.done + [Completion(op, Success)] && s'.acquired == s.acquired + [op]
            && s'.inside == s.inside + multiset{ByLock(op)} && s'.loop.sem == s.loop.sem)
      && (s.locked ==>
            && s'.loop.done == s.loop.done && s'.acquired == s.acquired && s'.inside == s.inside
            && (s.loop.sem.count == 0 ==> s'.loop.sem == Sem(0, s.loop.sem.waiters + [op])))
  {
    RunExtend(events, TurnCall(i));
  }
}
