/** The condition variable: whole runs, with any predicates and any schedule of the executor. */
module ConditionSpec {
  import opened Sequences
  import opened Tasks
  import opened SemaphoreSpec
  import opened ComposedWait

  /** predicated holds the waits that have a predicate. History: shown holds those
      of them whose own invocation evaluated the predicate to true, notifies counts
      the notify_one calls and woken the waits parked when notify_all was called. */
  datatype State = State(loop: Loop, started: nat, predicated: set<OpId>, shown: set<OpId>, notifies: nat, woken: nat)

  /** holds is what the predicate evaluates to if the call or turn evaluates it. */
  datatype Event =
    | WaitCall
    | PredicateWaitCall(holds: bool)
    | NotifyOneCall
    | NotifyAllCall
    | TurnCall(i: nat, holds: bool)
    | CancelCall(op: OpId)

  function Start(): State {
    State(ComposedWait.Start(0), 0, {}, {}, 0, 0)
  }

  /** A wait without predicate may pass as soon as it is resumed. */
  function MayPass(s: State, op: OpId, holds: bool): bool {
    op !in s.predicated || holds
  }

  function Step(s: State, e: Event): State {
    match e
    case WaitCall => s.(loop := Suspend(s.loop, s.started), started := s.started + 1)
    case PredicateWaitCall(holds) =>
      s.(loop := Enter(s.loop, s.started, holds), started := s.started + 1,
         predicated := s.predicated + {s.started},
         shown := s.shown + if holds then {s.started} else {})
    case NotifyOneCall => s.(loop := Apply(s.loop, Release(s.loop.sem)), notifies := s.notifies + 1)
    case NotifyAllCall =>
      s.(loop := Apply(s.loop, ReleaseAll(s.loop.sem)), woken := s.woken + |s.loop.sem.waiters|)
    case CancelCall(op) => s.(loop := Apply(s.loop, Cancel(s.loop.sem, op)))
    case TurnCall(i, holds) =>
      if i >= |s.loop.tasks| then s else
      var t := s.loop.tasks[i];
      s.(loop := Turn(s.loop, i, MayPass(s, t.op, holds)),
         shown := s.shown + if t == Resume(t.op, Success) && t.op in s.predicated && holds then {t.op} else {})
  }

  lemma TurnParts(s: State, i: nat, holds: bool)
    requires i < |s.loop.tasks|
    ensures var s' := Step(s, TurnCall(i, holds));
      && s'.loop == Turn(s.loop, i, MayPass(s, s.loop.tasks[i].op, holds))
      && s'.predicated == s.predicated
      && s'.started == s.started
  {
  }

  function Run(events: seq<Event>): State {
    if events == [] then Start() else Step(Run(events[..|events| - 1]), events[|events| - 1])
  }

  /** No notification is lost or invented: each is a permit kept or a wake handed out. */
  ghost predicate Notified(s: State) {
    s.loop.grants + s.loop.sem.count == s.notifies + s.woken
  }

  ghost predicate PredicateShown(s: State) {
    && (forall op :: op in s.predicated ==> op < s.started)
    && (forall op :: op in s.loop.passed && op in s.predicated ==> op in s.shown)
    && (forall op :: op in s.loop.passed ==> op < s.started)
  }

  ghost predicate Safe(s: State) {
    Good(s.loop, s.started) && Notified(s) && PredicateShown(s)
  }

  lemma GoodStep(s: State, e: Event)
    requires Good(s.loop, s.started) && Notified(s)
    ensures Good(Step(s, e).loop, Step(s, e).started) && Notified(Step(s, e))
  {
    match e
    case WaitCall => EnterKeeps(s.loop, s.started, false);
    case PredicateWaitCall(holds) => EnterKeeps(s.loop, s.started, holds);
    case NotifyOneCall => ReleaseKeeps(s.loop, s.started);
    case NotifyAllCall => ReleaseAllKeeps(s.loop, s.started);
    case CancelCall(op) => CancelKeeps(s.loop, s.started, op);
    case TurnCall(i, holds) =>
      if i < |s.loop.tasks| {
        TurnKeeps(s.loop, s.started, i, MayPass(s, s.loop.tasks[i].op, holds));
      }
  }

  lemma ShownStep(s: State, e: Event)
    requires Placed(s.loop, s.started) && PredicateShown(s)
    ensures PredicateShown(Step(s, e))
  {
    if e.TurnCall? && e.i < |s.loop.tasks| {
      QueuedIsNotParked(s.loop, s.started, e.i);
    }
  }

  lemma SafeStep(s: State, e: Event)
    requires Safe(s)
    ensures Safe(Step(s, e))
  {
    GoodStep(s, e);
    ShownStep(s, e);
  }

  lemma {:induction false} EveryRunIsSafe(events: seq<Event>)
    ensures Safe(Run(events))
  {
    if events != [] {
      EveryRunIsSafe(events[..|events| - 1]);
      SafeStep(Run(events[..|events| - 1]), events[|events| - 1]);
    }
  }

  /** In every run: wakes handed out = notify_one calls + waits woken by notify_all
      - permits kept, and permits are kept only while nothing is parked. */
  lemma NoNotificationLost(events: seq<Event>)
    ensures
      var s := Run(events);
      && s.loop.grants == s.notifies + s.woken - s.loop.sem.count
      && (s.loop.sem.count == 0 || s.loop.sem.waiters == [])
  {
    EveryRunIsSafe(events);
  }

  /** A wait with a predicate completes without error only if its predicate was
      evaluated to true in an invocation of that wait. */
  lemma PredicateHeldOnSuccess(events: seq<Event>, op: OpId)
    requires op in Completed(Run(events).loop.done, Success) && op in Run(events).predicated
    ensures op in Run(events).shown
  {
    EveryRunIsSafe(events);
    var s := Run(events);
    TimesIn(Completed(s.loop.done, Success), op);
    TimesIn(s.loop.passed, op);
  }

  /** notify_all resumes exactly the waits parked when it is called, in order, and
      leaves the permits kept as they were. */
  lemma NotifyAllWakesTheParked(s: State)
    ensures
      var s' := Step(s, NotifyAllCall);
      && s'.loop.sem == Sem(s.loop.sem.count, [])
      && Resumed(s'.loop.tasks, Success) == Resumed(s.loop.tasks, Success) + s.loop.sem.waiters
      && Resumed(s'.loop.tasks, OperationAborted) == Resumed(s.loop.tasks, OperationAborted)
  {
    var w := s.loop.sem.waiters;
    ResumedAppend(s.loop.tasks, Wake(w, Success), Success);
    ResumedAppend(s.loop.tasks, Wake(w, Success), OperationAborted);
    WakeResumes(w, Success, Success);
    WakeResumes(w, Success, OperationAborted);
  }

  // ----- Termination of the predicate loops

  function Turns(s: State, picks: seq<(nat, bool)>): State {
    if picks == [] then s
    else Step(Turns(s, picks[..|picks| - 1]), TurnCall(picks[|picks| - 1].0, picks[|picks| - 1].1))
  }

  ghost predicate Runnable(s: State, picks: seq<(nat, bool)>) {
    picks == [] || (Runnable(s, picks[..|picks| - 1])
                    && picks[|picks| - 1].0 < |Turns(s, picks[..|picks| - 1]).loop.tasks|)
  }

  /** However the predicates evaluate and whatever the schedule, kept permits cause
      only finitely many re-evaluations: each turn uses up one permit or one queued task. */
  lemma {:induction false} SpinTermination(s: State, picks: seq<(nat, bool)>)
    requires Safe(s) && Runnable(s, picks)
    ensures Work(Turns(s, picks).loop) == Work(s.loop) - |picks| && |picks| <= Work(s.loop)
  {
    TurnsAreSafe(s, picks);
    if picks != [] {
      var before, last := picks[..|picks| - 1], picks[|picks| - 1];
      var s0 := Turns(s, before);
      SpinTermination(s, before);
      TurnWorks(s0.loop, last.0, MayPass(s0, s0.loop.tasks[last.0].op, last.1));
    }
  }

  lemma {:induction false} TurnsAreSafe(s: State, picks: seq<(nat, bool)>)
    requires Safe(s)
    ensures Safe(Turns(s, picks))
  {
    if picks != [] {
      TurnsAreSafe(s, picks[..|picks| - 1]);
      SafeStep(Turns(s, picks[..|picks| - 1]), TurnCall(picks[|picks| - 1].0, picks[|picks| - 1].1));
    }
  }
}
