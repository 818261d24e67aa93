/**
 Whole runs of the semaphore: any sequence of operations from any
 non-negative initial count.
*/
module SemaphoreRuns {
  import opened Sequences
  import opened Tasks
  import opened SemaphoreSpec

  datatype Event = AsyncAcquireCall | TryAcquireCall | ReleaseCall | ReleaseAllCall | CancelCall(op: OpId)

  /** A semaphore together with what has happened to it: started counts the
      async_acquire calls (which take their numbers as identifiers), posted holds
      every handler posted so far, releases counts release calls, woken sums the
      results of release_all, and tries counts the successful try_acquire calls. */
  datatype History = History(sem: Sem, started: nat, posted: seq<Task>, releases: nat, woken: nat, tries: nat)

  function Start(initialCount: nat): History {
    History(Sem(initialCount, []), 0, [], 0, 0, 0)
  }

  function Extend(h: History, e: Effect): History {
    h.(sem := e.sem, posted := h.posted + e.posted)
  }

  function Step(h: History, e: Event): History {
    match e
    case AsyncAcquireCall => Extend(h, Acquire(h.sem, h.started)).(started := h.started + 1)
    case TryAcquireCall =>
      var (sem, ok) := TryAcquire(h.sem);
      h.(sem := sem, tries := h.tries + if ok then 1 else 0)
    case ReleaseCall => Extend(h, Release(h.sem)).(releases := h.releases + 1)
    case ReleaseAllCall => Extend(h, ReleaseAll(h.sem)).(woken := h.woken + |h.sem.waiters|)
    case CancelCall(op) => Extend(h, Cancel(h.sem, op))
  }

  function Run(initialCount: nat, events: seq<Event>): History {
    if events == [] then Start(initialCount)
    else Step(Run(initialCount, events[..|events| - 1]), events[|events| - 1])
  }

  // ----- FIFO order and exactly-once completion

  /** The identifiers below n that are not in dead, in initiation order. */
  function Survivors(n: nat, dead: seq<OpId>): seq<OpId> {
    if n == 0 then []
    else if n - 1 in dead then Survivors(n - 1, dead)
    else Survivors(n - 1, dead) + [n - 1]
  }

  ghost predicate Fifo(h: History) {
    Resumed(h.posted, Success) + h.sem.waiters == Survivors(h.started, Resumed(h.posted, OperationAborted))
  }

  /** Every operation started is parked or posted, once; no other is. */
  ghost predicate Once(h: History) {
    forall op: OpId :: Times(Ops(h.posted), op) + Times(h.sem.waiters, op) == if op < h.started then 1 else 0
  }

  lemma {:induction false} SurvivorsCancel(n: nat, dead: seq<OpId>, x: OpId)
    ensures Survivors(n, dead + [x]) == Without(Survivors(n, dead), x)
  {
    if n > 0 {
      SurvivorsCancel(n - 1, dead, x);
      if n - 1 !in dead {
        WithoutSnoc(Survivors(n - 1, dead), n - 1, x);
      }
    }
  }

  function Posts(h: History, e: Event): seq<Task> {
    match e
    case AsyncAcquireCall => Acquire(h.sem, h.started).posted
    case TryAcquireCall => []
    case ReleaseCall => Release(h.sem).posted
    case ReleaseAllCall => ReleaseAll(h.sem).posted
    case CancelCall(op) => Cancel(h.sem, op).posted
  }

  lemma StepPosts(h: History, e: Event)
    ensures Step(h, e).posted == h.posted + Posts(h, e)
    ensures Resumed(Step(h, e).posted, Success) == Resumed(h.posted, Success) + Resumed(Posts(h, e), Success)
    ensures Resumed(Step(h, e).posted, OperationAborted)
         == Resumed(h.posted, OperationAborted) + Resumed(Posts(h, e), OperationAborted)
  {
    assert h.posted + [] == h.posted;
    ResumedAppend(h.posted, Posts(h, e), Success);
    ResumedAppend(h.posted, Posts(h, e), OperationAborted);
  }

  lemma OnceStep(h: History, e: Event)
    requires Once(h)
    ensures Once(Step(h, e))
  {
    StepPosts(h, e);
    OpsAppend(h.posted, Posts(h, e));
    TimesAppend(Ops(h.posted), Ops(Posts(h, e)));
    match e
    case AsyncAcquireCall => AcquireHeld(h.sem, h.started); OnceExtends(h, Acquire(h.sem, h.started), 1);
    case TryAcquireCall =>
    case ReleaseCall => ReleaseHeld(h.sem); OnceExtends(h, Release(h.sem), 0);
    case ReleaseAllCall => WakeHeld(h.sem, Success); OnceExtends(h, ReleaseAll(h.sem), 0);
    case CancelCall(op) => CancelHeld(h.sem, op); OnceExtends(h, Cancel(h.sem, op), 0);
  }

  lemma OnceExtends(h: History, e: Effect, n: nat)
    requires Once(h) && n <= 1
    requires forall x :: Held(e, x) == Times(h.sem.waiters, x) + if n == 1 && x == h.started then 1 else 0
    ensures Once(Extend(h, e).(started := h.started + n))
  {
    OpsAppend(h.posted, e.posted);
    TimesAppend(Ops(h.posted), Ops(e.posted));
    forall op: OpId
      ensures Times(Ops(h.posted + e.posted), op) + Times(e.sem.waiters, op) == if op < h.started + n then 1 else 0
    {
      assert Held(e, op) == Times(h.sem.waiters, op) + if n == 1 && op == h.started then 1 else 0;
    }
  }

  /** An operation whose handler has been posted is not parked. */
  lemma OnceParked(h: History, op: OpId)
    requires Once(h) && op in h.sem.waiters
    ensures op < h.started && op !in Ops(h.posted)
  {
    TimesIn(h.sem.waiters, op);
    TimesIn(Ops(h.posted), op);
  }

  lemma NotYetPosted(h: History)
    requires Once(h)
    ensures h.started !in Ops(h.posted)
  {
    TimesIn(Ops(h.posted), h.started);
  }

  /** The newest operation survives, last in line. */
  lemma NewestSurvives(h: History)
    requires Once(h)
    ensures var dead := Resumed(h.posted, OperationAborted);
      Survivors(h.started + 1, dead) == Survivors(h.started, dead) + [h.started]
  {
    NotYetPosted(h);
    if h.started in Resumed(h.posted, OperationAborted) {
      ResumedAmongOps(h.posted, OperationAborted, h.started);
    }
  }

  lemma OneGranted(posted: seq<Task>, op: OpId)
    ensures var posted' := posted + [Resume(op, Success)];
      && Resumed(posted', Success) == Resumed(posted, Success) + [op]
      && Resumed(posted', OperationAborted) == Resumed(posted, OperationAborted)
  {
    assert (posted + [Resume(op, Success)])[..|posted|] == posted;
  }

  lemma OneAborted(posted: seq<Task>, op: OpId)
    ensures var posted' := posted + [Resume(op, OperationAborted)];
      && Resumed(posted', OperationAborted) == Resumed(posted, OperationAborted) + [op]
      && Resumed(posted', Success) == Resumed(posted, Success)
  {
    assert (posted + [Resume(op, OperationAborted)])[..|posted|] == posted;
  }

  lemma FifoGrant(h: History)
    requires Inv(h.sem) && Once(h) && Fifo(h) && h.sem.count != 0
    ensures Fifo(Step(h, AsyncAcquireCall))
  {
    var ok := Resumed(h.posted, Success);
    NewestSurvives(h);
    OneGranted(h.posted, h.started);
    assert ok + [h.started] + [] == ok + [] + [h.started];
  }

  lemma FifoPark(h: History)
    requires Once(h) && Fifo(h) && h.sem.count == 0
    ensures Fifo(Step(h, AsyncAcquireCall))
  {
    var ok := Resumed(h.posted, Success);
    NewestSurvives(h);
    assert h.posted + [] == h.posted;
    assert ok + (h.sem.waiters + [h.started]) == ok + h.sem.waiters + [h.started];
  }

  lemma FifoHandover(h: History)
    requires Fifo(h) && h.sem.waiters != []
    ensures Fifo(Step(h, ReleaseCall))
  {
    var head, rest, ok := h.sem.waiters[0], h.sem.waiters[1..], Resumed(h.posted, Success);
    OneGranted(h.posted, head);
    assert (ok + [head]) + rest == ok + h.sem.waiters;
  }

  lemma FifoRelease(h: History)
    requires Fifo(h)
    ensures Fifo(Step(h, ReleaseCall))
  {
    if h.sem.waiters == [] {
      assert h.posted + [] == h.posted;
    } else {
      FifoHandover(h);
    }
  }

  lemma FifoReleaseAll(h: History)
    requires Fifo(h)
    ensures Fifo(Step(h, ReleaseAllCall))
  {
    var h' := Step(h, ReleaseAllCall);
    StepPosts(h, ReleaseAllCall);
    WakeResumes(h.sem.waiters, Success, Success);
    WakeResumes(h.sem.waiters, Success, OperationAborted);
    assert Resumed(h'.posted, OperationAborted) == Resumed(h.posted, OperationAborted);
  }

  lemma FifoCancel(h: History, op: OpId)
    requires Once(h) && Fifo(h)
    ensures Fifo(Step(h, CancelCall(op)))
  {
    var h' := Step(h, CancelCall(op));
    var dead, ok := Resumed(h.posted, OperationAborted), Resumed(h.posted, Success);
    StepPosts(h, CancelCall(op));
    if op in h.sem.waiters {
      OneResume(op, OperationAborted, OperationAborted);
      OneResume(op, OperationAborted, Success);
      assert Resumed(h'.posted, OperationAborted) == dead + [op];
      assert Resumed(h'.posted, Success) == ok;
      SurvivorsCancel(h.started, dead, op);
      OnceParked(h, op);
      if op in ok {
        ResumedAmongOps(h.posted, Success, op);
      }
      WithoutAppend(ok, h.sem.waiters, op);
      WithoutAbsent(ok, op);
    } else {
      assert h'.posted == h.posted;
    }
  }

  lemma FifoStep(h: History, e: Event)
    requires Inv(h.sem) && Once(h) && Fifo(h)
    ensures Inv(Step(h, e).sem) && Fifo(Step(h, e))
  {
    match e
    case AsyncAcquireCall => if h.sem.count != 0 { FifoGrant(h); } else { FifoPark(h); }
    case TryAcquireCall =>
    case ReleaseCall => FifoRelease(h);
    case ReleaseAllCall => FifoReleaseAll(h);
    case CancelCall(op) => FifoCancel(h, op);
  }

  /** Strict FIFO in every run: the successful completions in the order they are
      posted, followed by the operations still parked, are exactly the operations
      started, in initiation order, less the cancelled ones. */
  lemma {:induction false} FifoInEveryRun(initialCount: nat, events: seq<Event>)
    ensures var h := Run(initialCount, events); Inv(h.sem) && Once(h) && Fifo(h)
  {
    if events != [] {
      var before := events[..|events| - 1];
      FifoInEveryRun(initialCount, before);
      OnceStep(Run(initialCount, before), events[|events| - 1]);
      FifoStep(Run(initialCount, before), events[|events| - 1]);
    }
  }

  /** At every point of every run an operation started is parked or has had its
      one handler posted, never both and never twice; one not started has neither. */
  lemma ExactlyOnce(initialCount: nat, events: seq<Event>, op: OpId)
    ensures
      var h := Run(initialCount, events);
      Times(Ops(h.posted), op) + Times(h.sem.waiters, op) == if op < h.started then 1 else 0
  {
    FifoInEveryRun(initialCount, events);
  }

  /** Emitting a cancellation after the handler was posted changes nothing. */
  lemma LateCancelIsNoOp(initialCount: nat, events: seq<Event>, op: OpId)
    requires op in Ops(Run(initialCount, events).posted)
    ensures Run(initialCount, events + [CancelCall(op)]) == Run(initialCount, events)
  {
    ExactlyOnce(initialCount, events, op);
    TimesIn(Ops(Run(initialCount, events).posted), op);
    TimesIn(Run(initialCount, events).sem.waiters, op);
    assert (events + [CancelCall(op)])[..|events|] == events;
  }

  lemma RunExtend(initialCount: nat, events: seq<Event>, e: Event)
    ensures Run(initialCount, events + [e]) == Step(Run(initialCount, events), e)
  {
    assert (events + [e])[..|events|] == events;
  }

  /** Cancelling a parked operation takes it out, posts operation_aborted for it and
      for nobody else, and leaves the others in their order and the permits alone. */
  lemma CancelCancels(initialCount: nat, events: seq<Event>, op: OpId)
    requires op in Run(initialCount, events).sem.waiters
    ensures
      var h, h' := Run(initialCount, events), Run(initialCount, events + [CancelCall(op)]);
      && op !in h'.sem.waiters
      && h'.sem.count == h.sem.count && |h'.sem.waiters| == |h.sem.waiters| - 1
      && h'.sem.waiters == Without(h.sem.waiters, op)
      && Resumed(h'.posted, OperationAborted) == Resumed(h.posted, OperationAborted) + [op]
      && Resumed(h'.posted, Success) == Resumed(h.posted, Success)
  {
    var h := Run(initialCount, events);
    RunExtend(initialCount, events, CancelCall(op));
    FifoInEveryRun(initialCount, events);
    CancelPosts(h, op);
    OneFewer(h, op);
    WithoutTimes(h.sem.waiters, op);
    TimesIn(Without(h.sem.waiters, op), op);
  }

  lemma CancelPosts(h: History, op: OpId)
    requires op in h.sem.waiters
    ensures var h' := Step(h, CancelCall(op));
      && h'.sem == h.sem.(waiters := Without(h.sem.waiters, op))
      && Resumed(h'.posted, OperationAborted) == Resumed(h.posted, OperationAborted) + [op]
      && Resumed(h'.posted, Success) == Resumed(h.posted, Success)
  {
    OneAborted(h.posted, op);
  }

  /** try_acquire succeeds exactly when value() is positive, and then takes one permit;
      it never waits and never wakes anyone. */
  lemma TryAcquireSucceedsIff(initialCount: nat, events: seq<Event>)
    ensures
      var h, h' := Run(initialCount, events), Run(initialCount, events + [TryAcquireCall]);
      && (TryAcquire(h.sem).1 <==> Value(h.sem) > 0)
      && Value(h'.sem) == Value(h.sem) - (if Value(h.sem) > 0 then 1 else 0)
      && h'.tries == h.tries + (if Value(h.sem) > 0 then 1 else 0)
      && h'.posted == h.posted && h'.sem.waiters == h.sem.waiters
  {
    FifoInEveryRun(initialCount, events);
    RunExtend(initialCount, events, TryAcquireCall);
  }

  /** The history counts what the callers did. */
  lemma {:induction false} HistoryCountsCalls(initialCount: nat, events: seq<Event>)
    ensures
      var h := Run(initialCount, events);
      h.started == Times(events, AsyncAcquireCall) && h.releases == Times(events, ReleaseCall)
  {
    if events != [] {
      var before, e := events[..|events| - 1], events[|events| - 1];
      HistoryCountsCalls(initialCount, before);
      assert events == before + [e];
      TimesAppend(before, [e]);
      TimesOne(e);
    }
  }

  /** try_acquire succeeds only when nothing is parked, so it overtakes no one. */
  lemma {:induction false} TryAcquireOvertakesNobody(initialCount: nat, events: seq<Event>)
    ensures
      var h := Run(initialCount, events);
      TryAcquire(h.sem).1 ==> h.sem.waiters == []
  {
    FifoInEveryRun(initialCount, events);
  }

  /** After the destructor every operation ever started has had exactly one handler
      posted, and those still parked got operation_aborted, in arrival order. */
  lemma DestroyCompletesAll(initialCount: nat, events: seq<Event>)
    ensures
      var h := Run(initialCount, events);
      var last := Extend(h, Destroy(h.sem));
      && last.sem.waiters == []
      && (forall op: OpId :: Times(Ops(last.posted), op) == if op < h.started then 1 else 0)
      && Resumed(last.posted, Success) == Resumed(h.posted, Success)
      && Resumed(last.posted, OperationAborted) == Resumed(h.posted, OperationAborted) + h.sem.waiters
  {
    FifoInEveryRun(initialCount, events);
    var h := Run(initialCount, events);
    var p := Destroy(h.sem).posted;
    WakeHeld(h.sem, OperationAborted);
    OnceExtends(h, Destroy(h.sem), 0);
    ResumedAppend(h.posted, p, Success);
    ResumedAppend(h.posted, p, OperationAborted);
    WakeResumes(h.sem.waiters, OperationAborted, Success);
    WakeResumes(h.sem.waiters, OperationAborted, OperationAborted);
  }

  // ----- Permits

  ghost predicate Conserved(initialCount: nat, h: History) {
    && h.sem.count + |Resumed(h.posted, Success)| + h.tries == initialCount + h.releases + h.woken
    && Value(h.sem) == initialCount + h.releases + h.woken
                       + |Resumed(h.posted, OperationAborted)| - (h.started + h.tries)
  }

  lemma ConservedStep(initialCount: nat, h: History, e: Event)
    requires Inv(h.sem) && Once(h) && Conserved(initialCount, h)
    ensures Conserved(initialCount, Step(h, e))
  {
    StepPosts(h, e);
    match e
    case AsyncAcquireCall =>
      OneResume(h.started, Success, Success);
      OneResume(h.started, Success, OperationAborted);
    case TryAcquireCall =>
    case ReleaseCall =>
      if h.sem.waiters != [] {
        OneResume(h.sem.waiters[0], Success, Success);
        OneResume(h.sem.waiters[0], Success, OperationAborted);
      }
    case ReleaseAllCall =>
      WakeResumes(h.sem.waiters, Success, Success);
      WakeResumes(h.sem.waiters, Success, OperationAborted);
    case CancelCall(op) => ConservedCancel(initialCount, h, op);
  }

  lemma OneFewer(h: History, op: OpId)
    requires Once(h) && op in h.sem.waiters
    ensures |Without(h.sem.waiters, op)| == |h.sem.waiters| - 1
  {
    TimesIn(h.sem.waiters, op);
    WithoutTimes(h.sem.waiters, op);
  }

  lemma ConservedCancel(initialCount: nat, h: History, op: OpId)
    requires Once(h) && Conserved(initialCount, h)
    ensures Conserved(initialCount, Step(h, CancelCall(op)))
  {
    if op in h.sem.waiters {
      StepPosts(h, CancelCall(op));
      OneFewer(h, op);
      OneResume(op, OperationAborted, Success);
      OneResume(op, OperationAborted, OperationAborted);
    } else {
      assert h.posted + [] == h.posted;
    }
  }

  /** Permits are conserved: those left plus those granted are the initial ones
      plus those released. value() further subtracts the operations parked, so it
      moves with every call and with every effective cancellation. */
  lemma {:induction false} PermitConservation(initialCount: nat, events: seq<Event>)
    ensures Conserved(initialCount, Run(initialCount, events))
  {
    if events != [] {
      var before := events[..|events| - 1];
      PermitConservation(initialCount, before);
      FifoInEveryRun(initialCount, before);
      ConservedStep(initialCount, Run(initialCount, before), events[|events| - 1]);
    }
  }

  // ----- What release_all brings the value to

  /** In every run release_all leaves value() at its maximum with zero: it brings it
      to zero, as documented, exactly when value() was not positive before. */
  lemma {:induction false} ReleaseAllReachesZero(initialCount: nat, events: seq<Event>)
    ensures
      var before, after := Value(Run(initialCount, events).sem), Value(ReleaseAll(Run(initialCount, events).sem).sem);
      && after == (if before > 0 then before else 0)
      && (after == 0 <==> before <= 0)
  {
    FifoInEveryRun(initialCount, events);
  }

  /** A new semaphore with one permit still has the value one after release_all. */
  lemma ReleaseAllLeavesAPermit()
    ensures Value(Run(1, [ReleaseAllCall]).sem) == 1
  {
    assert [ReleaseAllCall][..0] == [];
    assert Run(1, [ReleaseAllCall]) == Step(Start(1), ReleaseAllCall);
  }
}
