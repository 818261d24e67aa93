/**
 Ownership of locks by movable guards: whatever guards a program obtains, moves
 and destroys, each lock handed out is released once, and no two guards own one
 mutex at a time.
*/
module LockGuards {
  import opened Sequences
  import opened Tasks
  import opened ComposedWait
  import Mutex
  import Spec = MutexSpec

  class LockGuard {
    /** The mutex to unlock, or null if the guard has been moved from. */
    var mtx: Mutex.Mutex?

    constructor (mtx: Mutex.Mutex?)
      ensures this.mtx == mtx
    {
      this.mtx := mtx;
    }

    /** The move constructor. */
    constructor Move(from: LockGuard)
      modifies from
      ensures mtx == old(from.mtx) && from.mtx == null
    {
      mtx := from.mtx;
      new;
      from.mtx := null;
    }

    /** Move assignment swaps, so that the moved-from guard releases what this one held. */
    method Assign(from: LockGuard)
      modifies this, from
      ensures mtx == old(from.mtx) && from.mtx == old(mtx)
    {
      var m := mtx;
      mtx := from.mtx;
      from.mtx := m;
    }

    /** The destructor. */
    method Destroy(ghost s: Spec.State, ghost who: Spec.Holder)
      requires mtx != null ==> mtx.Shows(s)
      modifies if mtx == null then {}
               else {mtx, mtx.semaphore, mtx.semaphore.exec} + set n | n in mtx.semaphore.ring
      ensures mtx == old(mtx)
      ensures mtx != null ==> mtx.Shows(Spec.Step(s, Spec.UnlockCall(who)))
    {
      if mtx != null {
        mtx.Unlock(s, who);
      }
    }
  }

  // ----- Programs over guards

  type MutexId = nat

  /** The lock that operation op on mutex mtx is to take. */
  datatype LockId = LockId(mtx: MutexId, op: OpId)

  datatype Guard = Owns(lock: LockId) | Empty | Destroyed

  /** guards lists all guards ever constructed; taken and released record the locks
      for which a guard was constructed, and those that a destructor released. */
  datatype State = State(
    mutexes: map<MutexId, Spec.State>, guards: seq<Guard>, taken: seq<LockId>, released: seq<LockId>)

  datatype Event =
    | AsyncGuard(mtx: MutexId)
    | Turn(mtx: MutexId, i: nat)
    | MoveConstruct(from: nat)
    | MoveAssign(to: nat, from: nat)
    | Destroy(guard: nat)

  predicate Alive(s: State, g: nat) {
    g < |s.guards| && !s.guards[g].Destroyed?
  }

  function MutexOf(s: State, m: MutexId): Spec.State {
    if m in s.mutexes then s.mutexes[m] else Spec.Start()
  }

  function OnMutex(s: State, m: MutexId, e: Spec.Event): State {
    s.(mutexes := s.mutexes[m := Spec.Step(MutexOf(s, m), e)])
  }

  /** The operation that a turn completes, if any. */
  function Ended(x: Spec.State, i: nat): seq<Completion> {
    var done := Spec.Step(x, Spec.TurnCall(i)).loop.done;
    if |done| > |x.loop.done| then [done[|x.loop.done|]] else []
  }

  function HandOut(s: State, l: LockId): State {
    s.(guards := s.guards + [Owns(l)], taken := s.taken + [l])
  }

  /** What the destructor of a guard that owns l does. */
  function GiveBack(s: State, l: LockId): State {
    OnMutex(s, l.mtx, Spec.UnlockCall(Spec.ByLock(l.op))).(released := s.released + [l])
  }

  /** The handler of a lock operation constructs its guard. No event cancels a lock
      operation: that handler has no cancellation slot. Events that name no living
      guard do nothing. */
  function Step(s: State, e: Event): State {
    match e
    case AsyncGuard(m) => OnMutex(s, m, Spec.LockCall)
    case Turn(m, i) =>
      var ended, s' := Ended(MutexOf(s, m), i), OnMutex(s, m, Spec.TurnCall(i));
      if ended == [] then s' else HandOut(s', LockId(m, ended[0].op))
    case MoveConstruct(from) =>
      if Alive(s, from) then s.(guards := s.guards[from := Empty] + [s.guards[from]]) else s
    case MoveAssign(to, from) =>
      if Alive(s, to) && Alive(s, from)
      then s.(guards := s.guards[to := s.guards[from]][from := s.guards[to]]) else s
    case Destroy(g) =>
      if !Alive(s, g) then s else
      var s' := s.(guards := s.guards[g := Destroyed]);
      if s.guards[g].Owns? then GiveBack(s', s.guards[g].lock) else s'
  }

  function Run(events: seq<Event>): State {
    if events == [] then State(map[], [], [], [])
    else Step(Run(events[..|events| - 1]), events[|events| - 1])
  }

  // ----- Each mutex a program uses goes through a run

  predicate OwnsMutex(g: Guard, m: MutexId) {
    g.Owns? && g.lock.mtx == m
  }

  /** What the step e of the program is for mutex m. */
  function Drives(s: State, e: Event, m: MutexId): seq<Spec.Event> {
    match e
    case AsyncGuard(k) => if k == m then [Spec.LockCall] else []
    case Turn(k, i) => if k == m then [Spec.TurnCall(i)] else []
    case Destroy(g) =>
      if Alive(s, g) && OwnsMutex(s.guards[g], m) then [Spec.UnlockCall(Spec.ByLock(s.guards[g].lock.op))] else []
    case _ => []
  }

  lemma StepDrives(s: State, e: Event, m: MutexId)
    ensures MutexOf(Step(s, e), m)
         == if Drives(s, e, m) == [] then MutexOf(s, m) else Spec.Step(MutexOf(s, m), Drives(s, e, m)[0])
  {
  }

  /** The run of mutex m that the program drives. */
  function RunOf(events: seq<Event>, m: MutexId): seq<Spec.Event> {
    if events == [] then []
    else
      var before := events[..|events| - 1];
      RunOf(before, m) + Drives(Run(before), events[|events| - 1], m)
  }

  lemma DriveOn(s: State, e: Event, m: MutexId, run: seq<Spec.Event>)
    requires MutexOf(s, m) == Spec.Run(run)
    ensures MutexOf(Step(s, e), m) == Spec.Run(run + Drives(s, e, m))
  {
    var d := Drives(s, e, m);
    StepDrives(s, e, m);
    if d == [] {
      assert run + d == run;
    } else {
      Spec.RunExtend(run, d[0]);
      assert d == [d[0]];
    }
  }

  lemma {:induction false} ProgramDrivesRuns(events: seq<Event>, m: MutexId)
    ensures MutexOf(Run(events), m) == Spec.Run(RunOf(events, m))
  {
    if events != [] {
      var before, e := events[..|events| - 1], events[|events| - 1];
      ProgramDrivesRuns(before, m);
      DriveOn(Run(before), e, m, RunOf(before, m));
    }
  }

  // ----- No lock fails

  ghost predicate NoneAborted(x: Spec.State) {
    && (forall i :: 0 <= i < |x.loop.tasks| ==> x.loop.tasks[i] != Resume(x.loop.tasks[i].op, OperationAborted))
    && (forall c :: c in x.loop.done ==> c.ec == Success)
  }

  lemma NoneAbortedTurn(x: Spec.State, i: nat)
    requires NoneAborted(x) && i < |x.loop.tasks|
    ensures NoneAborted(Spec.Step(x, Spec.TurnCall(i)))
  {
    var tasks, rest := x.loop.tasks, DropAt(x.loop.tasks, i);
    forall j | 0 <= j < |rest| ensures rest[j] != Resume(rest[j].op, OperationAborted) {
      assert rest[j] == tasks[if j < i then j else j + 1];
    }
    assert tasks[i] != Resume(tasks[i].op, OperationAborted);
  }

  /** Only a cancellation aborts an operation. */
  lemma NoneAbortedStep(x: Spec.State, e: Spec.Event)
    requires NoneAborted(x) && !e.CancelCall?
    ensures NoneAborted(Spec.Step(x, e))
  {
    if e.TurnCall? && e.i < |x.loop.tasks| {
      NoneAbortedTurn(x, e.i);
    }
  }

  /** No lock operation begun for a guard ever fails. */
  lemma {:induction false} NoLockFails(events: seq<Event>, m: MutexId)
    ensures NoneAborted(MutexOf(Run(events), m))
  {
    if events != [] {
      var s, e := Run(events[..|events| - 1]), events[|events| - 1];
      NoLockFails(events[..|events| - 1], m);
      StepDrives(s, e, m);
      if Drives(s, e, m) != [] {
        NoneAbortedStep(MutexOf(s, m), Drives(s, e, m)[0]);
      }
    }
  }

  ghost predicate Sound(x: Spec.State) {
    Spec.Safe(x) && NoneAborted(x)
  }

  lemma EveryMutexIsSound(events: seq<Event>, m: MutexId)
    ensures Sound(MutexOf(Run(events), m))
  {
    NoLockFails(events, m);
    ProgramDrivesRuns(events, m);
    Spec.EveryRunIsSafe(RunOf(events, m));
  }

  // ----- What every program keeps

  /** How often op has completed on mutex x, against the guards handed out for it. */
  ghost predicate Balanced(x: Spec.State, op: OpId, taken: nat, owned: nat, released: nat) {
    && taken == owned + released
    && taken == Times(CompletedOps(x.loop.done), op)
    && x.inside[Spec.ByLock(op)] == owned
  }

  /** Each lock operation that completes hands out one guard; its lock is owned by one
      guard or has been released once; and the operation is inside the mutex
      exactly while a guard owns its lock. */
  ghost predicate Tied(s: State, l: LockId) {
    Balanced(MutexOf(s, l.mtx), l.op, Times(s.taken, l), Times(s.guards, Owns(l)), Times(s.released, l))
  }

  ghost predicate Invariant(s: State) {
    forall l :: Tied(s, l)
  }

  /** A step of a mutex that neither completes an operation nor moves anyone in or out. */
  lemma QuietStep(s: State, m: MutexId, e: Spec.Event)
    requires Invariant(s)
    requires var x := MutexOf(s, m); Spec.Step(x, e).loop.done == x.loop.done && Spec.Step(x, e).inside == x.inside
    ensures Invariant(OnMutex(s, m, e))
  {
    forall l ensures Tied(OnMutex(s, m, e), l) {
      assert Tied(s, l);
    }
  }

  /** A turn completes no operation, or the one whose task it is, for the first time,
      which enters the mutex. */
  lemma TurnEnds(x: Spec.State, i: nat)
    requires Sound(x)
    ensures var x', ended := Spec.Step(x, Spec.TurnCall(i)), Ended(x, i);
      && x'.loop.done == x.loop.done + ended
      && (ended == [] ==> x'.inside == x.inside)
      && (ended != [] ==> Times(CompletedOps(x.loop.done), ended[0].op) == 0)
      && (ended != [] ==> x'.inside == x.inside + multiset{Spec.ByLock(ended[0].op)})
  {
    if i < |x.loop.tasks| {
      var op := x.loop.tasks[i].op;
      assert Ops(x.loop.tasks)[i] == op && Places(x.loop, op) <= 1;
      TimesIn(Ops(x.loop.tasks), op);
    }
  }

  /** The first completion of c.op hands out its guard. */
  lemma BalancedEnd(
    x: Spec.State, x': Spec.State, c: Completion, op: OpId, taken: nat, owned: nat, released: nat)
    requires Balanced(x, op, taken, owned, released)
    requires x'.loop.done == x.loop.done + [c] && Times(CompletedOps(x.loop.done), c.op) == 0
    requires x'.inside == x.inside + multiset{Spec.ByLock(c.op)}
    ensures var d := if op == c.op then 1 else 0; Balanced(x', op, taken + d, owned + d, released)
  {
    AddCompletion(x.loop.done, c);
  }

  /** An unlock by the destructor of a guard for gone. */
  lemma BalancedUnlock(x: Spec.State, gone: OpId, op: OpId, taken: nat, owned: nat, released: nat)
    requires Balanced(x, op, taken, owned, released) && (op == gone ==> owned > 0)
    ensures var d := if op == gone then 1 else 0;
      Balanced(Spec.Step(x, Spec.UnlockCall(Spec.ByLock(gone))), op, taken, owned - d, released + d)
  {
  }

  lemma TurnKeepsTies(s: State, m: MutexId, i: nat)
    requires Invariant(s) && Sound(MutexOf(s, m))
    ensures Invariant(Step(s, Turn(m, i)))
  {
    var x := MutexOf(s, m);
    TurnEnds(x, i);
    if Ended(x, i) == [] {
      assert x.loop.done + [] == x.loop.done;
      QuietStep(s, m, Spec.TurnCall(i));
    } else {
      forall l ensures Tied(Step(s, Turn(m, i)), l) {
        HandsOut(s, m, i, Ended(x, i)[0], l);
      }
    }
  }

  lemma TimesNext<T>(s: seq<T>, last: T, x: T)
    ensures Times(s + [last], x) == Times(s, x) + if x == last then 1 else 0
  {
  }

  lemma OwnedLess(guards: seq<Guard>, g: nat, l: LockId)
    requires g < |guards|
    ensures Times(guards, Owns(l)) == Times(guards[g := Destroyed], Owns(l)) + if guards[g] == Owns(l) then 1 else 0
  {
  }

  lemma HandsOut(s: State, m: MutexId, i: nat, c: Completion, l: LockId)
    requires Tied(s, l) && Ended(MutexOf(s, m), i) == [c]
    requires var x := MutexOf(s, m); var x' := Spec.Step(x, Spec.TurnCall(i));
      && x'.loop.done == x.loop.done + [c] && Times(CompletedOps(x.loop.done), c.op) == 0
      && x'.inside == x.inside + multiset{Spec.ByLock(c.op)}
    ensures Tied(Step(s, Turn(m, i)), l)
  {
    var x, s', lock := MutexOf(s, m), Step(s, Turn(m, i)), LockId(m, c.op);
    assert s'.guards == s.guards + [Owns(lock)] && s'.taken == s.taken + [lock] && s'.released == s.released;
    TimesNext(s.guards, Owns(lock), Owns(l));
    TimesNext(s.taken, lock, l);
    if l.mtx == m {
      BalancedEnd(x, Spec.Step(x, Spec.TurnCall(i)), c, l.op,
                  Times(s.taken, l), Times(s.guards, Owns(l)), Times(s.released, l));
    }
  }

  lemma GivesBack(s: State, g: nat, l: LockId)
    requires Tied(s, l) && Alive(s, g) && s.guards[g].Owns?
    ensures Tied(Step(s, Destroy(g)), l)
  {
    var lock, s' := s.guards[g].lock, Step(s, Destroy(g));
    TimesIn(s.guards, s.guards[g]);
    OwnedLess(s.guards, g, l);
    TimesNext(s.released, lock, l);
    assert s'.guards == s.guards[g := Destroyed] && s'.taken == s.taken && s'.released == s.released + [lock];
    if l.mtx == lock.mtx {
      BalancedUnlock(MutexOf(s, l.mtx), lock.op, l.op,
                     Times(s.taken, l), Times(s.guards, Owns(l)), Times(s.released, l));
    }
  }

  lemma DestroyKeepsTies(s: State, g: nat)
    requires Invariant(s) && Alive(s, g)
    ensures Invariant(Step(s, Destroy(g)))
  {
    if s.guards[g].Owns? {
      forall l ensures Tied(Step(s, Destroy(g)), l) {
        GivesBack(s, g, l);
      }
    } else {
      TimesUpdate(s.guards, g, Destroyed);
      SameGuards(s, Step(s, Destroy(g)));
    }
  }

  lemma SameGuards(s: State, s': State)
    requires Invariant(s) && s' == s.(guards := s'.guards)
    requires forall l :: Times(s'.guards, Owns(l)) == Times(s.guards, Owns(l))
    ensures Invariant(s')
  {
    forall l ensures Tied(s', l) {
      assert Tied(s, l);
    }
  }

  lemma InvariantStep(s: State, e: Event)
    requires Invariant(s) && (e.Turn? ==> Sound(MutexOf(s, e.mtx)))
    ensures Invariant(Step(s, e))
  {
    match e
    case AsyncGuard(m) => QuietStep(s, m, Spec.LockCall);
    case Turn(m, i) => TurnKeepsTies(s, m, i);
    case MoveConstruct(from) =>
      if Alive(s, from) {
        TimesMove(s.guards, from, Empty);
        SameGuards(s, Step(s, e));
      }
    case MoveAssign(to, from) =>
      if Alive(s, to) && Alive(s, from) {
        TimesSwap(s.guards, to, from);
        SameGuards(s, Step(s, e));
      }
    case Destroy(g) =>
      if Alive(s, g) {
        DestroyKeepsTies(s, g);
      }
  }

  lemma {:induction false} EveryProgramIsTied(events: seq<Event>)
    ensures Invariant(Run(events))
  {
    if events != [] {
      var before, e := events[..|events| - 1], events[|events| - 1];
      EveryProgramIsTied(before);
      if e.Turn? {
        EveryMutexIsSound(before, e.mtx);
      }
      InvariantStep(Run(before), e);
    }
  }

  /** In every program each lock operation that completes hands out one guard, and its
      lock is owned by one guard or has been released once, never both. */
  lemma LocksAreConserved(events: seq<Event>, l: LockId)
    ensures var s := Run(events);
      Times(s.guards, Owns(l)) + Times(s.released, l) == Times(CompletedOps(MutexOf(s, l.mtx).loop.done), l.op) <= 1
  {
    EveryProgramIsTied(events);
    var s := Run(events);
    EveryMutexIsSound(events, l.mtx);
    assert Tied(s, l) && Places(MutexOf(s, l.mtx).loop, l.op) <= 1;
  }

  /** Once every guard is destroyed, every lock handed out has been released exactly
      once, and no operation is inside a mutex. */
  lemma AllReleasedAtTheEnd(events: seq<Event>, l: LockId)
    requires forall g :: 0 <= g < |Run(events).guards| ==> Run(events).guards[g].Destroyed?
    ensures var s := Run(events);
      && Times(s.released, l) == Times(CompletedOps(MutexOf(s, l.mtx).loop.done), l.op)
      && Spec.ByLock(l.op) !in MutexOf(s, l.mtx).inside
  {
    EveryProgramIsTied(events);
    TimesIn(Run(events).guards, Owns(l));
    assert Tied(Run(events), l);
  }

  // ----- One guard at a time

  /** Whenever a guard that owns a mutex is destroyed, its operation is inside. */
  lemma DestructorHolds(events: seq<Event>, g: nat)
    requires g < |Run(events).guards| && Run(events).guards[g].Owns?
    ensures var s := Run(events); var l := s.guards[g].lock;
      Spec.Disciplined(MutexOf(s, l.mtx), Spec.UnlockCall(Spec.ByLock(l.op)))
  {
    EveryProgramIsTied(events);
    OwnerIsInside(Run(events), Run(events).guards[g].lock.mtx, g);
  }

  lemma StaysDisciplined(s: State, e: Event, m: MutexId, run: seq<Spec.Event>)
    requires Invariant(s)
    requires MutexOf(s, m) == Spec.Run(run) && Spec.DisciplinedRun(run)
    ensures Spec.DisciplinedRun(run + Drives(s, e, m))
  {
    var d := Drives(s, e, m);
    if d == [] {
      assert run + d == run;
    } else {
      assert d == [d[0]];
      if e.Destroy? {
        OwnerIsInside(s, m, e.guard);
      }
      Spec.DisciplinedExtend(run, d[0]);
    }
  }

  /** Guard programs use each mutex as it is to be used: whoever unlocks it is inside. */
  lemma {:induction false} ProgramsAreDisciplined(events: seq<Event>, m: MutexId)
    ensures Spec.DisciplinedRun(RunOf(events, m))
  {
    if events != [] {
      var before, e := events[..|events| - 1], events[|events| - 1];
      ProgramsAreDisciplined(before, m);
      ProgramDrivesRuns(before, m);
      EveryProgramIsTied(before);
      StaysDisciplined(Run(before), e, m, RunOf(before, m));
    }
  }

  /** In every program at most one guard owns a mutex, and while one does the mutex
      is locked and its operation alone inside. */
  lemma OneGuardAtATime(events: seq<Event>, m: MutexId, g: nat)
    requires g < |Run(events).guards| && OwnsMutex(Run(events).guards[g], m)
    ensures var s := Run(events); var x := MutexOf(s, m);
      && x.locked && x.inside == multiset{Spec.ByLock(s.guards[g].lock.op)}
      && forall h :: 0 <= h < |s.guards| && OwnsMutex(s.guards[h], m) ==> h == g
  {
    var s, x := Run(events), MutexOf(Run(events), m);
    EveryProgramIsTied(events);
    ProgramsAreDisciplined(events, m);
    ProgramDrivesRuns(events, m);
    Spec.MutualExclusion(RunOf(events, m));
    OwnerIsInside(s, m, g);
    OnlyOne(x.inside, Spec.ByLock(s.guards[g].lock.op));
    forall h | 0 <= h < |s.guards| && OwnsMutex(s.guards[h], m) ensures h == g {
      OwnerIsInside(s, m, h);
      if h != g {
        TwoTimes(s.guards, g, h);
      }
    }
  }

  lemma OwnerIsInside(s: State, m: MutexId, g: nat)
    requires Invariant(s) && g < |s.guards| && OwnsMutex(s.guards[g], m)
    ensures MutexOf(s, m).inside[Spec.ByLock(s.guards[g].lock.op)] == Times(s.guards, s.guards[g]) > 0
  {
    TimesIn(s.guards, s.guards[g]);
    assert Tied(s, s.guards[g].lock);
  }

  lemma TwoTimes<T>(s: seq<T>, i: nat, j: nat)
    requires i < |s| && j < |s| && i != j && s[i] == s[j]
    ensures Times(s, s[i]) >= 2
  {
    TimesDropAt(s, i);
    assert DropAt(s, i)[if j < i then j else j - 1] == s[j];
    TimesIn(DropAt(s, i), s[i]);
  }

  lemma OnlyOne<T>(s: multiset<T>, x: T)
    requires |s| <= 1 && x in s
    ensures s == multiset{x}
  {
    assert s == multiset{x} + (s - multiset{x});
  }

  // ----- What each event comes to

  lemma RunExtend(events: seq<Event>, e: Event)
    ensures Run(events + [e]) == Step(Run(events), e)
  {
    assert (events + [e])[..|events|] == events;
  }

  /** A guard that is constructed from another owns what that one owned, and that one
      owns nothing any more. */
  lemma MoveConstructMoves(events: seq<Event>, from: nat)
    requires Alive(Run(events), from)
    ensures var s, s' := Run(events), Run(events + [MoveConstruct(from)]);
      && |s'.guards| == |s.guards| + 1 && s'.guards[|s.guards|] == s.guards[from] && s'.guards[from] == Empty
      && (forall g :: 0 <= g < |s.guards| && g != from ==> s'.guards[g] == s.guards[g])
      && s'.mutexes == s.mutexes
  {
    RunExtend(events, MoveConstruct(from));
  }

  /** Two guards that are assigned exchange what they own. */
  lemma MoveAssignExchanges(events: seq<Event>, to: nat, from: nat)
    requires Alive(Run(events), to) && Alive(Run(events), from)
    ensures var s, s' := Run(events), Run(events + [MoveAssign(to, from)]);
      && |s'.guards| == |s.guards| && s'.guards[to] == s.guards[from] && s'.guards[from] == s.guards[to]
      && (forall g :: 0 <= g < |s.guards| && g != to && g != from ==> s'.guards[g] == s.guards[g])
      && s'.mutexes == s.mutexes
  {
    RunExtend(events, MoveAssign(to, from));
  }

  /** A guard that is destroyed unlocks the mutex it owns; one that owns none touches no mutex. */
  lemma DestroyUnlocks(events: seq<Event>, g: nat)
    requires Alive(Run(events), g)
    ensures var s, s' := Run(events), Run(events + [Destroy(g)]); var guard := s.guards[g];
      && s'.guards == s.guards[g := Destroyed]
      && (!guard.Owns? ==> s'.mutexes == s.mutexes)
      && (guard.Owns? ==>
            && !MutexOf(s', guard.lock.mtx).locked
            && Spec.ByLock(guard.lock.op) !in MutexOf(s', guard.lock.mtx).inside
            && forall m :: m != guard.lock.mtx ==> MutexOf(s', m) == MutexOf(s, m))
  {
    RunExtend(events, Destroy(g));
    if Run(events).guards[g].Owns? {
      OneGuardAtATime(events, Run(events).guards[g].lock.mtx, g);
    }
  }

  /** async_guard begins a lock operation, and on a free mutex it has handed out its
      guard once its own handler has had its turn. */
  lemma FreeMutexIsGuarded(events: seq<Event>, m: MutexId)
    ensures var s, called := Run(events), Run(events + [AsyncGuard(m)]); var x := MutexOf(s, m);
      && MutexOf(called, m).started == x.started + 1 && called.guards == s.guards
      && (!x.locked ==>
            Run(events + [AsyncGuard(m)] + [Turn(m, |x.loop.tasks|)]).guards == s.guards + [Owns(LockId(m, x.started))])
  {
    var x := MutexOf(Run(events), m);
    RunExtend(events, AsyncGuard(m));
    RunExtend(events + [AsyncGuard(m)], Turn(m, |x.loop.tasks|));
    if !x.locked {
      var y := Spec.Step(x, Spec.LockCall);
      assert y.loop.tasks[|x.loop.tasks|] == Finish(x.started);
      assert Ended(y, |x.loop.tasks|) == [Completion(x.started, Success)];
    }
  }
}
