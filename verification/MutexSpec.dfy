/** The asynchronous mutex: whole runs under any schedule of the executor. */
module MutexSpec {
  import opened Sequences
  import opened Tasks
  import opened SemaphoreSpec
  import opened ComposedWait

  /** Who may unlock: an operation whose lock completed without error, or a
      caller for whom try_lock found the mutex unlocked. */
  datatype Holder = ByLock(op: OpId) | ByTry

  /** inside records the holders that have not unlocked yet, and acquired the
      operations whose own invocation changed locked from false to true. */
  datatype State = State(locked: bool, loop: Loop, started: nat, inside: multiset<Holder>, acquired: seq<OpId>)

  datatype Event =
    | LockCall
    | TryLockCall
    | UnlockCall(who: Holder)
    | TurnCall(i: nat)
    | CancelCall(op: OpId)

  /** The semaphore of a new mutex holds one permit. */
  const INITIAL_COUNT: nat := 1

  function Start(): State {
    State(false, ComposedWait.Start(INITIAL_COUNT), 0, multiset{}, [])
  }

  /** A turn at a position where nothing is queued does nothing. */
  function Step(s: State, e: Event): State {
    match e
    case LockCall =>
      s.(locked := true, loop := Enter(s.loop, s.started, !s.locked), started := s.started + 1,
         acquired := s.acquired + if s.locked then [] else [s.started])
    case TryLockCall =>
      s.(locked := true, inside := s.inside + if s.locked then multiset{} else multiset{ByTry})
    case UnlockCall(who) =>
      s.(locked := false, loop := Apply(s.loop, Release(s.loop.sem)), inside := s.inside - multiset{who})
    case CancelCall(op) => s.(loop := Apply(s.loop, Cancel(s.loop.sem, op)))
    case TurnCall(i) =>
      if i >= |s.loop.tasks| then s else
      var t, next := s.loop.tasks[i], s.(loop := Turn(s.loop, i, !s.locked));
      match t
      case Finish(op) => next.(inside := s.inside + multiset{ByLock(op)})
      case Resume(op, OperationAborted) => next
      case Resume(op, Success) =>
        if s.locked then next
        else next.(locked := true, inside := s.inside + multiset{ByLock(op)}, acquired := s.acquired + [op])
  }

  lemma TurnParts(s: State, i: nat)
    requires i < |s.loop.tasks|
    ensures var t, s' := s.loop.tasks[i], Step(s, TurnCall(i));
      && s'.loop == Turn(s.loop, i, !s.locked)
      && s'.locked == (s.locked || t == Resume(t.op, Success))
      && s'.started == s.started
  {
  }

  function Run(events: seq<Event>): State {
    if events == [] then Start() else Step(Run(events[..|events| - 1]), events[|events| - 1])
  }

  /** Callers unlock only what they hold. */
  ghost predicate Disciplined(s: State, e: Event) {
    e.UnlockCall? ==> e.who in s.inside
  }

  ghost predicate DisciplinedRun(events: seq<Event>) {
    events == [] || (DisciplinedRun(events[..|events| - 1])
                     && Disciplined(Run(events[..|events| - 1]), events[|events| - 1]))
  }

  lemma RunExtend(events: seq<Event>, e: Event)
    ensures Run(events + [e]) == Step(Run(events), e)
  {
    assert (events + [e])[..|events|] == events;
  }

  lemma DisciplinedExtend(events: seq<Event>, e: Event)
    requires DisciplinedRun(events) && Disciplined(Run(events), e)
    ensures DisciplinedRun(events + [e])
  {
    assert (events + [e])[..|events|] == events;
  }

  // ----- Exactly-once completion and no lost wakeup

  ghost predicate NoLostWakeup(s: State) {
    !s.locked && s.loop.sem.waiters != [] ==> Resumed(s.loop.tasks, Success) != []
  }

  ghost predicate Safe(s: State) {
    Good(s.loop, s.started) && s.loop.passed == s.acquired && NoLostWakeup(s)
  }

  lemma SafeStep(s: State, e: Event)
    requires Safe(s)
    ensures Safe(Step(s, e))
  {
    match e
    case LockCall => EnterKeeps(s.loop, s.started, !s.locked);
    case TryLockCall =>
    case UnlockCall(_) => ReleaseKeeps(s.loop, s.started);
    case CancelCall(op) => CancelKeeps(s.loop, s.started, op);
    case TurnCall(i) =>
      if i < |s.loop.tasks| {
        TurnKeeps(s.loop, s.started, i, !s.locked);
        TakeResume(s.loop.tasks, i);
      }
  }

  /** What every run keeps, under any interleaving and even if callers unlock what they do not hold. */
  lemma {:induction false} EveryRunIsSafe(events: seq<Event>)
    ensures
      var s := Run(events);
      && Good(s.loop, s.started)
      && s.loop.passed == s.acquired
      && NoLostWakeup(s)
  {
    if events != [] {
      EveryRunIsSafe(events[..|events| - 1]);
      SafeStep(Run(events[..|events| - 1]), events[|events| - 1]);
    }
  }

  /** No lost wakeup: whenever the mutex is unlocked while an operation is parked, a
      successful resume is already queued. */
  lemma NoWakeupIsLost(events: seq<Event>)
    requires !Run(events).locked && Run(events).loop.sem.waiters != []
    ensures
      var tasks := Run(events).loop.tasks;
      exists i :: 0 <= i < |tasks| && tasks[i] == Resume(tasks[i].op, Success)
  {
    EveryRunIsSafe(events);
    ResumedIsQueued(Run(events).loop.tasks);
  }

  lemma {:induction false} ResumedIsQueued(tasks: seq<Task>)
    requires Resumed(tasks, Success) != []
    ensures exists i :: 0 <= i < |tasks| && tasks[i] == Resume(tasks[i].op, Success)
  {
    var init, last := tasks[..|tasks| - 1], tasks[|tasks| - 1];
    if Resumed(init, Success) != [] {
      ResumedIsQueued(init);
      var i :| 0 <= i < |init| && init[i] == Resume(init[i].op, Success);
      assert tasks[i] == init[i];
    } else {
      assert last == Resume(last.op, Success);
    }
  }

  /** Each lock operation is parked, queued or completed, exactly one of these. It
      completes without error, or is about to, exactly if one of its own
      invocations changed locked from false to true. */
  lemma EachLockInOnePlace(events: seq<Event>, op: OpId)
    ensures
      var s := Run(events);
      && Times(s.loop.sem.waiters, op) + Times(Ops(s.loop.tasks), op) + Times(CompletedOps(s.loop.done), op)
         == (if op < s.started then 1 else 0)
      && Times(Completed(s.loop.done, Success), op) + Times(Finishing(s.loop.tasks), op) == Times(s.acquired, op)
  {
    EveryRunIsSafe(events);
    assert Places(Run(events).loop, op) == if op < Run(events).started then 1 else 0;
  }

  // ----- Permits

  /** The number of unlock calls. */
  function Unlocks(events: seq<Event>): nat {
    if events == [] then 0
    else Unlocks(events[..|events| - 1]) + if events[|events| - 1].UnlockCall? then 1 else 0
  }

  /** Every unlock releases one permit, contended or not: in every run the permits
      left and those granted are the first one and one for each unlock. */
  lemma {:induction false} OnePermitPerUnlock(events: seq<Event>)
    ensures Run(events).loop.sem.count + Run(events).loop.grants == 1 + Unlocks(events)
  {
    if events != [] {
      var s, e := Run(events[..|events| - 1]), events[|events| - 1];
      OnePermitPerUnlock(events[..|events| - 1]);
      EveryRunIsSafe(events[..|events| - 1]);
      match e
      case LockCall => EnterKeeps(s.loop, s.started, !s.locked);
      case TryLockCall =>
      case UnlockCall(_) => ReleaseKeeps(s.loop, s.started);
      case CancelCall(op) => CancelKeeps(s.loop, s.started, op);
      case TurnCall(i) =>
        if i < |s.loop.tasks| {
          TurnKeeps(s.loop, s.started, i, !s.locked);
        }
    }
  }

  // ----- Mutual exclusion

  /** While the mutex is locked there is one holder, inside or about to be told so; otherwise none. */
  ghost predicate Exclusive(s: State) {
    |s.inside| + |Finishing(s.loop.tasks)| == if s.locked then 1 else 0
  }

  lemma ExclusiveTurn(s: State, i: nat)
    requires Good(s.loop, s.started) && Exclusive(s) && i < |s.loop.tasks|
    ensures Exclusive(Step(s, TurnCall(i)))
  {
    TurnKeeps(s.loop, s.started, i, !s.locked);
    TurnParts(s, i);
  }

  lemma ExclusiveStep(s: State, e: Event)
    requires Good(s.loop, s.started) && Exclusive(s) && Disciplined(s, e)
    ensures Exclusive(Step(s, e))
  {
    match e
    case LockCall => EnterKeeps(s.loop, s.started, !s.locked);
    case TryLockCall =>
    case UnlockCall(_) => ReleaseKeeps(s.loop, s.started);
    case CancelCall(op) => CancelKeeps(s.loop, s.started, op);
    case TurnCall(i) =>
      if i < |s.loop.tasks| {
        ExclusiveTurn(s, i);
      }
  }

  lemma {:induction false} EveryDisciplinedRunIsExclusive(events: seq<Event>)
    requires DisciplinedRun(events)
    ensures Exclusive(Run(events))
  {
    if events != [] {
      EveryDisciplinedRunIsExclusive(events[..|events| - 1]);
      EveryRunIsSafe(events[..|events| - 1]);
      ExclusiveStep(Run(events[..|events| - 1]), events[|events| - 1]);
    }
  }

  /** Mutual exclusion in every disciplined run: never two holders, none while the
      mutex is unlocked, and a holder while it is locked unless the one operation
      that locked it is about to be told so. */
  lemma {:induction false} MutualExclusion(events: seq<Event>)
    requires DisciplinedRun(events)
    ensures |Run(events).inside| <= 1
    ensures !Run(events).locked ==> Run(events).inside == multiset{}
    ensures Run(events).locked && Finishing(Run(events).loop.tasks) == [] ==> |Run(events).inside| == 1
  {
    EveryDisciplinedRunIsExclusive(events);
  }
}
