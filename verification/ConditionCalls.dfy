/** What the calls on a condition variable come to, at any point of any run. */
module ConditionCalls {
  import opened Sequences
  import opened Tasks
  import opened SemaphoreSpec
  import opened ComposedWait
  import opened ConditionSpec

  lemma RunExtend(events: seq<Event>, e: Event)
    ensures Run(events + [e]) == Step(Run(events), e)
  {
    assert (events + [e])[..|events|] == events;
  }

  lemma RunTwo(events: seq<Event>, e: Event, f: Event)
    ensures Run(events + [e, f]) == Step(Step(Run(events), e), f)
  {
    RunExtend(events, e);
    RunExtend(events + [e], f);
    assert events + [e, f] == events + [e] + [f];
  }

  lemma LastTask(tasks: seq<Task>, t: Task)
    ensures (tasks + [t])[|tasks|] == t && DropAt(tasks + [t], |tasks|) == tasks
  {
  }

  /** Op is parked behind all others, and nothing has completed or been queued. */
  ghost predicate ParksLast(l: Loop, l': Loop, op: OpId) {
    l'.tasks == l.tasks && l'.done == l.done && l'.sem == Sem(0, l.sem.waiters + [op])
  }

  /** Op is resumed by a permit kept, and nothing has completed. */
  ghost predicate UsesAPermit(l: Loop, l': Loop, op: OpId) {
    l'.tasks == l.tasks + [Resume(op, Success)] && l'.done == l.done && l'.sem == Sem(l.sem.count - 1, l.sem.waiters)
  }

  ghost predicate Waits(l: Loop, l': Loop, op: OpId) {
    if l.sem.count == 0 then ParksLast(l, l', op) else UsesAPermit(l, l', op)
  }

  /** A wait without predicate waits: it completes nothing, and parks last unless a
      notification has been kept, which it uses up. */
  lemma PlainWaitWaits(events: seq<Event>)
    ensures var s, s' := Run(events), Run(events + [WaitCall]);
      && Waits(s.loop, s'.loop, s.started) && s'.started == s.started + 1
      && s.started !in s'.predicated
  {
    EveryRunIsSafe(events);
    RunExtend(events, WaitCall);
    assert Run(events).loop.tasks + [] == Run(events).loop.tasks;
  }

  /** A wait whose predicate is true at the call completes when its own handler has
      had its turn, with no notification; one whose predicate is false waits. */
  lemma PredicateWaitPassesIff(events: seq<Event>, holds: bool, later: bool)
    ensures var s := Run(events);
      var called := Run(events + [PredicateWaitCall(holds)]);
      var next := Run(events + [PredicateWaitCall(holds), TurnCall(|s.loop.tasks|, later)]);
      && called.loop.done == s.loop.done && s.started in called.predicated
      && (!holds ==> Waits(s.loop, called.loop, s.started))
      && (holds ==> next.loop.done == s.loop.done + [Completion(s.started, Success)]
                    && next.loop.tasks == s.loop.tasks && next.loop.sem == s.loop.sem)
  {
    var s := Run(events);
    RunExtend(events, PredicateWaitCall(holds));
    RunTwo(events, PredicateWaitCall(holds), TurnCall(|s.loop.tasks|, later));
    LastTask(s.loop.tasks, Finish(s.started));
    assert s.loop.tasks + [] == s.loop.tasks;
  }

  /** A resumed wait completes in its turn if it has no predicate or the predicate is
      true then; otherwise it completes nothing and waits on. */
  lemma ResumedTurn(events: seq<Event>, i: nat, holds: bool)
    requires i < |Run(events).loop.tasks| && Run(events).loop.tasks[i] == Resume(Run(events).loop.tasks[i].op, Success)
    ensures var s, s' := Run(events), Run(events + [TurnCall(i, holds)]);
      var op, rest := s.loop.tasks[i].op, s.loop.(tasks := DropAt(s.loop.tasks, i));
      if op !in s.predicated || holds
      then s'.loop.done == s.loop.done + [Completion(op, Success)] && s'.loop.tasks == rest.tasks
           && s'.loop.sem == s.loop.sem
      else Waits(rest, s'.loop, op)
  {
    var rest := Run(events).loop.(tasks := DropAt(Run(events).loop.tasks, i));
    RunExtend(events, TurnCall(i, holds));
    assert rest.tasks + [] == rest.tasks;
  }

  /** notify_one resumes the wait parked longest, last in the queue, or is kept. */
  lemma NotifyOneResumesOne(events: seq<Event>)
    ensures var s, s' := Run(events), Run(events + [NotifyOneCall]); var w := s.loop.sem.waiters;
      && s'.loop.done == s.loop.done
      && (w == [] ==> s'.loop.tasks == s.loop.tasks && s'.loop.sem == Sem(s.loop.sem.count + 1, []))
      && (w != [] ==> s'.loop.tasks == s.loop.tasks + [Resume(w[0], Success)]
                      && s'.loop.sem == Sem(s.loop.sem.count, w[1..]))
  {
    RunExtend(events, NotifyOneCall);
    assert Run(events).loop.tasks + [] == Run(events).loop.tasks;
  }

  /** A cancelled wait that is parked leaves its place, the others keep theirs, and once
      its handler has had its turn it has completed with operation_aborted, whatever
      its predicate. */
  lemma CancelAborts(events: seq<Event>, op: OpId, holds: bool)
    requires op in Run(events).loop.sem.waiters
    ensures var s := Run(events);
      var r := Run(events + [CancelCall(op), TurnCall(|s.loop.tasks|, holds)]);
      && op !in r.loop.sem.waiters && r.loop.sem == Sem(s.loop.sem.count, Without(s.loop.sem.waiters, op))
      && r.loop.done == s.loop.done + [Completion(op, OperationAborted)] && r.loop.tasks == s.loop.tasks
  {
    var s := Run(events);
    RunTwo(events, CancelCall(op), TurnCall(|s.loop.tasks|, holds));
    LastTask(s.loop.tasks, Resume(op, OperationAborted));
    WithoutTimes(s.loop.sem.waiters, op);
    TimesIn(Without(s.loop.sem.waiters, op), op);
  }

  // ----- A wait without predicate succeeds only by a notification

  predicate PlainTask(t: Task, predicated: set<OpId>) {
    t.op !in predicated && t != Resume(t.op, OperationAborted)
  }

  /** The number of queued tasks of waits without predicate that carry no error. */
  function PlainQueued(tasks: seq<Task>, predicated: set<OpId>): nat {
    if tasks == [] then 0
    else PlainQueued(tasks[..|tasks| - 1], predicated) + if PlainTask(tasks[|tasks| - 1], predicated) then 1 else 0
  }

  /** The number of waits without predicate that have completed without error. */
  function PlainSucceeded(done: seq<Completion>, predicated: set<OpId>): nat {
    if done == [] then 0
    else
      var c := done[|done| - 1];
      PlainSucceeded(done[..|done| - 1], predicated) + if c.op !in predicated && c.ec == Success then 1 else 0
  }

  lemma {:induction false} QueuedAppend(a: seq<Task>, b: seq<Task>, predicated: set<OpId>)
    ensures PlainQueued(a + b, predicated) == PlainQueued(a, predicated) + PlainQueued(b, predicated)
  {
    if b == [] {
      assert a + b == a;
    } else {
      assert (a + b)[..|a + b| - 1] == a + b[..|b| - 1];
      QueuedAppend(a, b[..|b| - 1], predicated);
    }
  }

  lemma QueuedOne(t: Task, predicated: set<OpId>)
    ensures PlainQueued([t], predicated) == if PlainTask(t, predicated) then 1 else 0
  {
    assert [t][..0] == [];
  }

  lemma QueuedDrop(tasks: seq<Task>, i: nat, predicated: set<OpId>)
    requires i < |tasks|
    ensures PlainQueued(tasks, predicated)
         == PlainQueued(DropAt(tasks, i), predicated) + if PlainTask(tasks[i], predicated) then 1 else 0
  {
    var a, t, b := tasks[..i], [tasks[i]], tasks[i + 1..];
    assert tasks == (a + t) + b;
    QueuedAppend(a + t, b, predicated);
    QueuedAppend(a, t, predicated);
    QueuedAppend(a, b, predicated);
    QueuedOne(tasks[i], predicated);
  }

  lemma {:induction false} QueuedAtMost(tasks: seq<Task>, predicated: set<OpId>)
    ensures PlainQueued(tasks, predicated) <= |tasks|
  {
    if tasks != [] {
      QueuedAtMost(tasks[..|tasks| - 1], predicated);
    }
  }

  lemma {:induction false} QueuedOthers(tasks: seq<Task>, predicated: set<OpId>, op: OpId)
    requires op !in Ops(tasks)
    ensures PlainQueued(tasks, predicated + {op}) == PlainQueued(tasks, predicated)
  {
    if tasks != [] {
      var init := tasks[..|tasks| - 1];
      assert Ops(tasks) == Ops(init) + [tasks[|tasks| - 1].op];
      QueuedOthers(init, predicated, op);
    }
  }

  lemma {:induction false} SucceededOthers(done: seq<Completion>, predicated: set<OpId>, op: OpId)
    requires op !in CompletedOps(done)
    ensures PlainSucceeded(done, predicated + {op}) == PlainSucceeded(done, predicated)
  {
    if done != [] {
      var init := done[..|done| - 1];
      assert CompletedOps(done) == CompletedOps(init) + [done[|done| - 1].op];
      SucceededOthers(init, predicated, op);
    }
  }

  lemma SucceededNext(done: seq<Completion>, c: Completion, predicated: set<OpId>)
    ensures PlainSucceeded(done + [c], predicated)
         == PlainSucceeded(done, predicated) + if c.op !in predicated && c.ec == Success then 1 else 0
  {
    assert (done + [c])[..|done|] == done;
  }

  /** Each success of a wait without predicate, made or queued, has had its grant. */
  ghost predicate Granted(l: Loop, predicated: set<OpId>) {
    PlainSucceeded(l.done, predicated) + PlainQueued(l.tasks, predicated) <= l.grants
  }

  /** The semaphore resumes as many operations without error as it grants permits. */
  lemma GrantedApply(l: Loop, e: Effect, predicated: set<OpId>)
    requires Granted(l, predicated) && PlainQueued(e.posted, predicated) <= |Resumed(e.posted, Success)|
    ensures Granted(Apply(l, e), predicated)
  {
    QueuedAppend(l.tasks, e.posted, predicated);
  }

  lemma GrantedSuspend(l: Loop, op: OpId, predicated: set<OpId>)
    requires Granted(l, predicated)
    ensures Granted(Suspend(l, op), predicated)
  {
    QueuedAtMost(Acquire(l.sem, op).posted, predicated);
    OneResume(op, Success, Success);
    GrantedApply(l, Acquire(l.sem, op), predicated);
  }

  lemma GrantedCall(s: State, e: Event)
    requires Granted(s.loop, s.predicated) && !e.TurnCall? && !e.PredicateWaitCall?
    ensures Granted(Step(s, e).loop, s.predicated)
  {
    var l, p := s.loop, s.predicated;
    match e
    case WaitCall => GrantedSuspend(l, s.started, p);
    case NotifyOneCall =>
      QueuedAtMost(Release(l.sem).posted, p);
      if l.sem.waiters != [] {
        OneResume(l.sem.waiters[0], Success, Success);
      }
      GrantedApply(l, Release(l.sem), p);
    case NotifyAllCall =>
      QueuedAtMost(ReleaseAll(l.sem).posted, p);
      WakeResumes(l.sem.waiters, Success, Success);
      GrantedApply(l, ReleaseAll(l.sem), p);
    case CancelCall(op) =>
      QueuedOne(Resume(op, OperationAborted), p);
      GrantedApply(l, Cancel(l.sem, op), p);
  }

  lemma NewOp(l: Loop, started: nat)
    requires Placed(l, started)
    ensures started !in Ops(l.tasks) && started !in CompletedOps(l.done)
  {
    assert Places(l, started) == 0;
    TimesIn(Ops(l.tasks), started);
    TimesIn(CompletedOps(l.done), started);
  }

  lemma GrantedPredicateWait(s: State, holds: bool)
    requires Placed(s.loop, s.started) && Granted(s.loop, s.predicated)
    ensures Granted(Step(s, PredicateWaitCall(holds)).loop, s.predicated + {s.started})
  {
    var l, op, p := s.loop, s.started, s.predicated + {s.started};
    NewOp(l, op);
    QueuedOthers(l.tasks, s.predicated, op);
    SucceededOthers(l.done, s.predicated, op);
    if holds {
      QueuedAppend(l.tasks, [Finish(op)], p);
      QueuedOne(Finish(op), p);
    } else {
      GrantedSuspend(l, op, p);
    }
  }

  lemma GrantedTurn(s: State, i: nat, holds: bool)
    requires i < |s.loop.tasks| && Granted(s.loop, s.predicated)
    ensures Granted(Step(s, TurnCall(i, holds)).loop, s.predicated)
  {
    var l, t, p := s.loop, s.loop.tasks[i], s.predicated;
    QueuedDrop(l.tasks, i, p);
    if t == Resume(t.op, Success) && t.op in p && !holds {
      GrantedSuspend(l.(tasks := DropAt(l.tasks, i)), t.op, p);
    } else {
      SucceededNext(l.done, Completion(t.op, if t.Finish? then Success else t.ec), p);
    }
  }

  lemma {:induction false} GrantedInEveryRun(events: seq<Event>)
    ensures Granted(Run(events).loop, Run(events).predicated)
  {
    if events != [] {
      var before, e := events[..|events| - 1], events[|events| - 1];
      GrantedInEveryRun(before);
      EveryRunIsSafe(before);
      match e
      case PredicateWaitCall(holds) => GrantedPredicateWait(Run(before), holds);
      case TurnCall(i, holds) => if i < |Run(before).loop.tasks| { GrantedTurn(Run(before), i, holds); }
      case _ => GrantedCall(Run(before), e);
    }
  }

  lemma CountStep(s: State, e: Event)
    ensures Step(s, e).notifies == s.notifies + (if e == NotifyOneCall then 1 else 0)
    ensures Step(s, e).woken == s.woken + (if e == NotifyAllCall then |s.loop.sem.waiters| else 0)
  {
  }

  /** The history counts the notify_one calls, and the waits parked at each notify_all. */
  lemma {:induction false} HistoryCountsCalls(events: seq<Event>)
    ensures Run(events).notifies == Times(events, NotifyOneCall) && Run(events).woken == ParkedAtNotifyAll(events)
  {
    if events != [] {
      var before, e := events[..|events| - 1], events[|events| - 1];
      HistoryCountsCalls(before);
      CountStep(Run(before), e);
      assert events == before + [e];
      TimesAppend(before, [e]);
      TimesOne(e);
    }
  }

  function ParkedAtNotifyAll(events: seq<Event>): nat {
    if events == [] then 0
    else
      var before, e := events[..|events| - 1], events[|events| - 1];
      ParkedAtNotifyAll(before) + if e.NotifyAllCall? then |Run(before).loop.sem.waiters| else 0
  }

  /** No wait without predicate succeeds by itself: those that have completed without
      error, or are about to, are no more than the notify_one calls and the waits
      that notify_all has woken. */
  lemma PlainSuccessNeedsNotification(events: seq<Event>)
    ensures
      var s := Run(events);
      PlainSucceeded(s.loop.done, s.predicated) + PlainQueued(s.loop.tasks, s.predicated)
        <= Times(events, NotifyOneCall) + ParkedAtNotifyAll(events)
  {
    GrantedInEveryRun(events);
    HistoryCountsCalls(events);
    EveryRunIsSafe(events);
  }
}
