/** In which order the mutex serves its lock operations, and exactly when it departs from it. */
module MutexOrder {
  import opened Sequences
  import opened Tasks
  import opened SemaphoreSpec
  import opened ComposedWait
  import opened MutexSpec
  import opened MutexProgress

  // ----- Call order over whole runs

  predicate Before(s: seq<OpId>, i: nat, j: nat) {
    i < j < |s| ==> s[i] < s[j]
  }

  ghost predicate Ascending(s: seq<OpId>) {
    forall i, j :: Before(s, i, j)
  }

  /** The operations that wait, resumed ones before parked ones. */
  function Pending(l: Loop): seq<OpId> {
    Resumed(l.tasks, Success) + l.sem.waiters
  }

  /** The operations in the order in which the mutex has served or is to serve them. */
  function Line(s: State): seq<OpId> {
    s.acquired + Pending(s.loop)
  }

  /** Operations are numbered in the order of the lock calls. */
  ghost predicate InCallOrder(s: State) {
    Ascending(Line(s))
  }

  ghost predicate WakesUp(s: State, i: nat) {
    i < |s.loop.tasks| && s.loop.tasks[i] == Resume(s.loop.tasks[i].op, Success)
  }

  /** The waiting operations before and after the one whose turn is at position i. */
  function Ahead(l: Loop, i: nat): seq<OpId>
    requires i < |l.tasks|
  {
    Resumed(l.tasks[..i], Success)
  }

  function Behind(l: Loop, i: nat): seq<OpId>
    requires i < |l.tasks|
  {
    Resumed(l.tasks[i + 1..], Success) + l.sem.waiters
  }

  /** The events that break the order: a lock call that finds the mutex free while it
      is being handed to someone; a resumed operation that finds it free before
      one resumed earlier; a resumed operation that finds it locked and so falls
      behind others that were resumed or parked after it. */
  ghost predicate Overtakes(s: State, e: Event) {
    match e
    case LockCall => !s.locked && Resumed(s.loop.tasks, Success) != []
    case TurnCall(i) => WakesUp(s, i) && (if s.locked then Behind(s.loop, i) else Ahead(s.loop, i)) != []
    case _ => false
  }

  /** Every operation in line has been started. */
  ghost predicate LineStarted(s: State) {
    forall op :: op in Line(s) ==> op < s.started
  }

  lemma InLine(s: State, op: OpId)
    ensures op in Line(s) <==> op in s.acquired || op in Resumed(s.loop.tasks, Success) || op in s.loop.sem.waiters
  {
  }

  ghost predicate AcquiredStarted(s: State) {
    forall op :: op in s.acquired ==> op < s.started
  }

  lemma LineIsStarted(s: State)
    requires Placed(s.loop, s.started) && AcquiredStarted(s)
    ensures LineStarted(s)
  {
    forall op | op in Line(s) ensures op < s.started {
      InLine(s, op);
      assert Places(s.loop, op) == if op < s.started then 1 else 0;
      if op in Resumed(s.loop.tasks, Success) {
        ResumedAmongOps(s.loop.tasks, Success, op);
        TimesIn(Ops(s.loop.tasks), op);
      }
      TimesIn(s.loop.sem.waiters, op);
    }
  }

  lemma AcquiredStep(s: State, e: Event)
    requires Placed(s.loop, s.started) && AcquiredStarted(s)
    ensures AcquiredStarted(Step(s, e))
  {
    if e.TurnCall? && e.i < |s.loop.tasks| {
      QueuedIsNotParked(s.loop, s.started, e.i);
    }
  }

  lemma {:induction false} AcquiredWereStarted(events: seq<Event>)
    ensures AcquiredStarted(Run(events))
  {
    if events != [] {
      var before := events[..|events| - 1];
      EveryRunIsSafe(before);
      AcquiredWereStarted(before);
      AcquiredStep(Run(before), events[|events| - 1]);
    }
  }

  // The three ways in which an operation moves along the line.

  /** Moving x from between p and q to before p keeps the order only if p is empty. */
  lemma MovedForward(a: seq<OpId>, p: seq<OpId>, x: OpId, q: seq<OpId>)
    requires Ascending(a + (p + [x] + q))
    ensures Ascending((a + [x]) + (p + q)) <==> p == []
  {
    if p == [] {
      assert (a + [x]) + (p + q) == a + (p + [x] + q);
    } else {
      var before, after := a + (p + [x] + q), (a + [x]) + (p + q);
      assert before[|a|] == p[0] && before[|a| + |p|] == x;
      assert after[|a|] == x && after[|a| + 1] == p[0];
      assert Before(before, |a|, |a| + |p|);
      assert !Before(after, |a|, |a| + 1);
    }
  }

  /** Moving x from between p and q to the end keeps the order only if q is empty. */
  lemma MovedBack(a: seq<OpId>, p: seq<OpId>, x: OpId, q: seq<OpId>)
    requires Ascending(a + (p + [x] + q))
    ensures Ascending(a + (p + q + [x])) <==> q == []
  {
    if q == [] {
      assert p + q + [x] == p + [x] + q;
    } else {
      var before, after, k := a + (p + [x] + q), a + (p + q + [x]), |a| + |p|;
      assert before[k] == x && before[k + 1] == q[0];
      assert after[k] == q[0] && after[k + |q|] == x;
      assert Before(before, k, k + 1);
      assert !Before(after, k, k + |q|);
    }
  }

  lemma AddedLast(a: seq<OpId>, x: OpId)
    requires Ascending(a) && forall y :: y in a ==> y < x
    ensures Ascending(a + [x])
  {
    forall i: nat, j: nat ensures Before(a + [x], i, j) {
      assert Before(a, i, j);
      assert i < |a| ==> a[i] in a;
    }
  }

  lemma OccursOnce(a: seq<OpId>, k: nat, j: nat)
    requires Ascending(a) && k < |a| && j < |a| && j != k
    ensures a[j] != a[k]
  {
    assert Before(a, j, k) && Before(a, k, j);
  }

  lemma DroppedAt(line: seq<OpId>, k: nat)
    requires Ascending(line) && k < |line|
    ensures Ascending(DropAt(line, k))
  {
    forall i: nat, j: nat ensures Before(DropAt(line, k), i, j) {
      assert Before(line, if i < k then i else i + 1, if j < k then j else j + 1);
    }
  }

  lemma WithoutIsDropAt(b: seq<OpId>, k: nat)
    requires k < |b| && forall j :: 0 <= j < |b| && j != k ==> b[j] != b[k]
    ensures Without(b, b[k]) == DropAt(b, k)
  {
    assert b == b[..k] + [b[k]] + b[k + 1..];
    WithoutMiddle(b[..k], b[k], b[k + 1..]);
  }

  lemma DropAtSecond(a: seq<OpId>, b: seq<OpId>, k: nat)
    requires k < |b|
    ensures DropAt(a + b, |a| + k) == a + DropAt(b, k)
  {
  }

  lemma LeftOut(a: seq<OpId>, b: seq<OpId>, x: OpId)
    requires Ascending(a + b) && x in b
    ensures Ascending(a + Without(b, x))
  {
    var k :| 0 <= k < |b| && b[k] == x;
    forall j | 0 <= j < |b| && j != k ensures b[j] != b[k] {
      OccursOnce(a + b, |a| + k, |a| + j);
    }
    WithoutIsDropAt(b, k);
    DroppedAt(a + b, |a| + k);
    DropAtSecond(a, b, k);
  }

  // What each event does to the waiting operations.

  /** An operation that suspends goes behind all others that wait. */
  lemma SuspendedLast(l: Loop, op: OpId)
    requires Inv(l.sem)
    ensures Pending(Suspend(l, op)) == Pending(l) + [op]
  {
    if l.sem.count != 0 {
      OneResume(op, Success, Success);
      ResumedAppend(l.tasks, [Resume(op, Success)], Success);
    } else {
      assert l.tasks + [] == l.tasks;
    }
  }

  lemma ReleasedStay(l: Loop)
    ensures Pending(Apply(l, Release(l.sem))) == Pending(l)
  {
    var w := l.sem.waiters;
    if w != [] {
      OneResume(w[0], Success, Success);
      ResumedAppend(l.tasks, [Resume(w[0], Success)], Success);
      assert w == [w[0]] + w[1..];
    } else {
      assert l.tasks + [] == l.tasks;
    }
  }

  lemma PendingAround(l: Loop, i: nat)
    requires i < |l.tasks|
    ensures Pending(l.(tasks := DropAt(l.tasks, i))) == Ahead(l, i) + Behind(l, i)
    ensures Pending(l) == Ahead(l, i)
                          + (if l.tasks[i] == Resume(l.tasks[i].op, Success) then [l.tasks[i].op] else [])
                          + Behind(l, i)
  {
    ResumedAround(l.tasks, i);
  }

  // What each event does to the call order.

  lemma LockCallOrder(s: State)
    requires Safe(s) && LineStarted(s) && InCallOrder(s)
    ensures InCallOrder(Step(s, LockCall)) <==> !Overtakes(s, LockCall)
  {
    var s', w := Step(s, LockCall), Pending(s.loop);
    AddedLast(Line(s), s.started);
    if s.locked {
      SuspendedLast(s.loop, s.started);
      Regrouped(s.acquired, w, [s.started]);
    } else {
      AddFinish(s.loop.tasks, s.started);
      Regrouped(s.acquired, w, [s.started]);
      MovedForward(s.acquired, w, s.started, []);
      assert s'.acquired == s.acquired + [s.started] && Pending(s'.loop) == w;
    }
  }

  lemma Regrouped(a: seq<OpId>, b: seq<OpId>, c: seq<OpId>)
    ensures (a + b) + c == a + (b + c)
    ensures a + [] == a && b + [] == b && b + c + [] == b + c
  {
  }

  lemma CancelOrder(s: State, op: OpId)
    requires Safe(s) && InCallOrder(s)
    ensures InCallOrder(Step(s, CancelCall(op)))
  {
    var a, r, w := s.acquired, Resumed(s.loop.tasks, Success), s.loop.sem.waiters;
    CancelKeeps(s.loop, s.started, op);
    if op in w {
      Regrouped(a, r, w);
      LeftOut(a + r, w, op);
      Regrouped(a, r, Without(w, op));
    }
  }

  lemma LockedTurnOrder(s: State, i: nat)
    requires Safe(s) && InCallOrder(s) && s.locked && WakesUp(s, i)
    ensures InCallOrder(Step(s, TurnCall(i))) <==> Behind(s.loop, i) == []
  {
    var op := s.loop.tasks[i].op;
    PendingAround(s.loop, i);
    SuspendedLast(s.loop.(tasks := DropAt(s.loop.tasks, i)), op);
    MovedBack(s.acquired, Ahead(s.loop, i), op, Behind(s.loop, i));
  }

  lemma FreeTurnOrder(s: State, i: nat)
    requires InCallOrder(s) && !s.locked && WakesUp(s, i)
    ensures InCallOrder(Step(s, TurnCall(i))) <==> Ahead(s.loop, i) == []
  {
    PendingAround(s.loop, i);
    MovedForward(s.acquired, Ahead(s.loop, i), s.loop.tasks[i].op, Behind(s.loop, i));
  }

  /** A turn that completes an operation without a test leaves the line as it is. */
  lemma OtherTurnLine(s: State, i: nat)
    requires !WakesUp(s, i)
    ensures Line(Step(s, TurnCall(i))) == Line(s)
  {
    if i < |s.loop.tasks| {
      PendingAround(s.loop, i);
    }
  }

  lemma TurnOrder(s: State, i: nat)
    requires Safe(s) && InCallOrder(s)
    ensures InCallOrder(Step(s, TurnCall(i))) <==> !Overtakes(s, TurnCall(i))
  {
    if !WakesUp(s, i) {
      OtherTurnLine(s, i);
    } else if s.locked {
      LockedTurnOrder(s, i);
    } else {
      FreeTurnOrder(s, i);
    }
  }

  /** A step keeps the call order exactly if nobody overtakes in it. */
  lemma OrderStep(s: State, e: Event)
    requires Safe(s) && LineStarted(s) && InCallOrder(s)
    ensures InCallOrder(Step(s, e)) <==> !Overtakes(s, e)
  {
    match e
    case LockCall => LockCallOrder(s);
    case TryLockCall => assert Line(Step(s, e)) == Line(s);
    case UnlockCall(_) => ReleasedStay(s.loop);
    case CancelCall(op) => CancelOrder(s, op);
    case TurnCall(i) => TurnOrder(s, i);
  }

  /** At every point of the run the operations are served in call order. */
  ghost predicate AlwaysInCallOrder(events: seq<Event>) {
    InCallOrder(Run(events)) && (events == [] || AlwaysInCallOrder(events[..|events| - 1]))
  }

  ghost predicate NobodyOvertakes(events: seq<Event>) {
    events == [] || (NobodyOvertakes(events[..|events| - 1])
                     && !Overtakes(Run(events[..|events| - 1]), events[|events| - 1]))
  }

  /** The mutex serves its lock operations in call order throughout a run if and
      only if no event of the run overtakes. */
  lemma {:induction false} CallOrderIff(events: seq<Event>)
    ensures AlwaysInCallOrder(events) <==> NobodyOvertakes(events)
  {
    if events != [] {
      var before, e := events[..|events| - 1], events[|events| - 1];
      CallOrderIff(before);
      EveryRunIsSafe(before);
      AcquiredWereStarted(before);
      LineIsStarted(Run(before));
      if InCallOrder(Run(before)) {
        OrderStep(Run(before), e);
      }
      if AlwaysInCallOrder(before) {
        assert InCallOrder(Run(before));
      }
    }
  }

  /** Then the lock is acquired in call order, and the parked were called in the order
      in which they wait, after all who acquired it. */
  lemma CallOrderKept(events: seq<Event>)
    requires NobodyOvertakes(events)
    ensures Ascending(Run(events).acquired) && Ascending(Run(events).loop.sem.waiters)
    ensures forall x, y :: x in Run(events).acquired && y in Run(events).loop.sem.waiters ==> x < y
  {
    CallOrderIff(events);
    var s := Run(events);
    Regrouped(s.acquired, Resumed(s.loop.tasks, Success), s.loop.sem.waiters);
    AscendingParts(s.acquired, Resumed(s.loop.tasks, Success), s.loop.sem.waiters);
  }

  lemma AscendingParts(a: seq<OpId>, r: seq<OpId>, w: seq<OpId>)
    requires Ascending(a + r + w)
    ensures Ascending(a) && Ascending(w)
    ensures forall x, y :: x in a && y in w ==> x < y
  {
    var line, k := a + r + w, |a| + |r|;
    forall i: nat, j: nat ensures Before(a, i, j) && Before(w, i, j) {
      assert Before(line, i, j) && Before(line, k + i, k + j);
    }
    forall x, y | x in a && y in w ensures x < y {
      var i, j :| 0 <= i < |a| && a[i] == x && 0 <= j < |w| && w[j] == y;
      assert line[i] == x && line[k + j] == y && Before(line, i, k + j);
    }
  }

  // ----- A condition on the callers

  /** Nobody locks while an operation that the semaphore has resumed waits for its turn. */
  ghost predicate Patient(s: State, e: Event) {
    e.LockCall? || e.TryLockCall? ==> Resumed(s.loop.tasks, Success) == []
  }

  ghost predicate PatientRun(events: seq<Event>) {
    events == [] || (PatientRun(events[..|events| - 1])
                     && Patient(Run(events[..|events| - 1]), events[|events| - 1]))
  }

  /** One operation at most is on its way from the semaphore to its test, and none is
      parked behind it that it could fall behind. */
  ghost predicate OneOnItsWay(s: State) {
    var r := Resumed(s.loop.tasks, Success);
    |r| <= 1 && (s.locked && r != [] ==> s.loop.sem.waiters == [])
  }

  lemma PatientTurn(s: State, i: nat)
    requires Safe(s) && OneOnItsWay(s) && WakesUp(s, i)
    ensures OneOnItsWay(Step(s, TurnCall(i))) && !Overtakes(s, TurnCall(i))
  {
    var rest, op := s.loop.(tasks := DropAt(s.loop.tasks, i)), s.loop.tasks[i].op;
    ResumedAround(s.loop.tasks, i);
    assert Resumed(rest.tasks, Success) == [];
    EnterResumes(rest, op, false);
  }

  lemma OtherTurn(s: State, i: nat)
    requires OneOnItsWay(s) && !WakesUp(s, i)
    ensures OneOnItsWay(Step(s, TurnCall(i)))
  {
    if i < |s.loop.tasks| {
      ResumedAround(s.loop.tasks, i);
      assert Step(s, TurnCall(i)).loop.tasks == DropAt(s.loop.tasks, i);
    }
  }

  lemma PatientUnlock(s: State, who: Holder)
    requires Safe(s) && Exclusive(s) && OneOnItsWay(s) && who in s.inside
    ensures OneOnItsWay(Step(s, UnlockCall(who)))
  {
    HolderLocks(s, who);
    ReleaseResumes(s.loop);
  }

  lemma HolderLocks(s: State, who: Holder)
    requires Exclusive(s) && who in s.inside
    ensures s.locked
  {
    assert s.inside == multiset{who} + (s.inside - multiset{who});
  }

  lemma PatientLock(s: State)
    requires Safe(s) && OneOnItsWay(s) && Patient(s, LockCall)
    ensures OneOnItsWay(Step(s, LockCall)) && !Overtakes(s, LockCall)
  {
    EnterResumes(s.loop, s.started, !s.locked);
  }

  lemma PatientStep(s: State, e: Event)
    requires Safe(s) && Exclusive(s) && OneOnItsWay(s) && Patient(s, e) && Disciplined(s, e)
    ensures OneOnItsWay(Step(s, e)) && !Overtakes(s, e)
  {
    match e
    case LockCall => PatientLock(s);
    case TryLockCall =>
    case UnlockCall(who) => PatientUnlock(s, who);
    case CancelCall(op) => CancelKeeps(s.loop, s.started, op);
    case TurnCall(i) =>
      if WakesUp(s, i) { PatientTurn(s, i); } else { OtherTurn(s, i); }
  }

  lemma EnterResumes(l: Loop, op: OpId, ready: bool)
    ensures Resumed(Enter(l, op, ready).tasks, Success)
         == Resumed(l.tasks, Success) + if ready || l.sem.count == 0 then [] else [op]
  {
    AddFinish(l.tasks, op);
    OneResume(op, Success, Success);
    ResumedAppend(l.tasks, [Resume(op, Success)], Success);
    assert l.tasks + [] == l.tasks;
  }

  lemma ReleaseResumes(l: Loop)
    ensures Resumed(Apply(l, Release(l.sem)).tasks, Success)
         == Resumed(l.tasks, Success) + l.sem.waiters[..if l.sem.waiters == [] then 0 else 1]
  {
    if l.sem.waiters == [] {
      assert l.tasks + [] == l.tasks;
    } else {
      OneResume(l.sem.waiters[0], Success, Success);
      ResumedAppend(l.tasks, [Resume(l.sem.waiters[0], Success)], Success);
    }
  }

  /** If callers unlock only what they hold and never lock during a handoff, the lock
      operations are served in call order. */
  lemma {:induction false} PatientRunsKeepCallOrder(events: seq<Event>)
    requires DisciplinedRun(events) && PatientRun(events)
    ensures OneOnItsWay(Run(events)) && NobodyOvertakes(events) && AlwaysInCallOrder(events)
  {
    if events != [] {
      var before := events[..|events| - 1];
      PatientRunsKeepCallOrder(before);
      EveryRunIsSafe(before);
      EveryDisciplinedRunIsExclusive(before);
      PatientStep(Run(before), events[|events| - 1]);
    }
    CallOrderIff(events);
  }

  // ----- Who gets the lock that is handed over

  function Steps(s: State, events: seq<Event>): State {
    if events == [] then s else Step(Steps(s, events[..|events| - 1]), events[|events| - 1])
  }

  /** Whether the mutex has been taken and not unlocked since: taken by a call, or by
      the turn of a resumed operation. */
  ghost predicate TakenSince(s: State, es: seq<Event>) {
    if es == [] then false
    else
      var before, e := es[..|es| - 1], es[|es| - 1];
      match e
      case LockCall => true
      case TryLockCall => true
      case UnlockCall(_) => false
      case CancelCall(_) => TakenSince(s, before)
      case TurnCall(i) => WakesUp(Steps(s, before), i) || TakenSince(s, before)
  }

  lemma {:induction false} LockedSince(s: State, es: seq<Event>)
    requires !s.locked
    ensures Steps(s, es).locked <==> TakenSince(s, es)
  {
    if es != [] {
      LockedSince(s, es[..|es| - 1]);
    }
  }

  /** Operation w is resumed and first in the queue. */
  ghost predicate First(s: State, w: OpId) {
    s.loop.tasks != [] && s.loop.tasks[0] == Resume(w, Success)
  }

  lemma FirstStep(s: State, w: OpId, e: Event)
    requires First(s, w) && e != TurnCall(0)
    ensures First(Step(s, e), w)
  {
  }

  lemma {:induction false} StaysFirst(s: State, w: OpId, es: seq<Event>)
    requires Safe(s) && First(s, w) && TurnCall(0) !in es
    ensures Safe(Steps(s, es)) && First(Steps(s, es), w)
  {
    if es != [] {
      var init, last := es[..|es| - 1], es[|es| - 1];
      assert es == init + [last];
      StaysFirst(s, w, init);
      SafeStep(Steps(s, init), last);
      FirstStep(Steps(s, init), w, last);
    }
  }

  /** The mutex is free and operation w, resumed for it, is first in the queue; es is
      anything that happens before w has its turn. The turn gives w the mutex if
      and only if the mutex has not been taken since it was last unlocked;
      otherwise w goes behind all others that wait. */
  lemma FirstAcquiresIff(s: State, w: OpId, es: seq<Event>)
    requires Safe(s) && !s.locked && First(s, w) && TurnCall(0) !in es
    ensures
      var v, r := Steps(s, es), Step(Steps(s, es), TurnCall(0));
      && First(v, w)
      && r.acquired == v.acquired + (if TakenSince(s, es) then [] else [w])
      && Pending(r.loop) == Behind(v.loop, 0) + (if TakenSince(s, es) then [w] else [])
  {
    var v := Steps(s, es);
    StaysFirst(s, w, es);
    LockedSince(s, es);
    FirstTurn(v, w);
  }

  lemma FirstTurn(v: State, w: OpId)
    requires Safe(v) && First(v, w)
    ensures var r := Step(v, TurnCall(0));
      && r.acquired == v.acquired + (if v.locked then [] else [w])
      && Pending(r.loop) == Behind(v.loop, 0) + (if v.locked then [w] else [])
  {
    var rest := v.loop.(tasks := DropAt(v.loop.tasks, 0));
    PendingAround(v.loop, 0);
    assert Pending(rest) == Behind(v.loop, 0);
    if v.locked {
      SuspendedLast(rest, w);
    }
  }

  /** What others may do before the first queued task has its turn: call in, or take later turns. */
  predicate Meanwhile(e: Event) {
    e.LockCall? || e.TryLockCall? || e.CancelCall? || (e.TurnCall? && e.i > 0)
  }

  predicate Contends(e: Event) {
    e.LockCall? || e.TryLockCall?
  }

  /** Operation w is first in the queue, resumed, and nobody else is. */
  ghost predicate HandedTo(s: State, w: OpId) {
    && Inv(s.loop.sem) && s.loop.sem.count == 0
    && s.loop.tasks != [] && s.loop.tasks[0] == Resume(w, Success)
    && |Resumed(s.loop.tasks, Success)| == 1
  }

  lemma OnlyTheFirstWakesUp(tasks: seq<Task>, i: nat)
    requires 0 < i < |tasks| && tasks[0] == Resume(tasks[0].op, Success) && |Resumed(tasks, Success)| == 1
    ensures tasks[i] != Resume(tasks[i].op, Success)
  {
    TakeResume(tasks, i);
    TakeResume(DropAt(tasks, i), 0);
  }

  lemma MeanwhileCancel(s: State, w: OpId, op: OpId)
    requires HandedTo(s, w)
    ensures HandedTo(Step(s, CancelCall(op)), w)
  {
    if op in s.loop.sem.waiters {
      OneResume(op, OperationAborted, Success);
      ResumedAppend(s.loop.tasks, [Resume(op, OperationAborted)], Success);
    } else {
      assert s.loop.tasks + [] == s.loop.tasks;
    }
  }

  lemma MeanwhileTurn(s: State, w: OpId, i: nat)
    requires HandedTo(s, w) && 0 < i < |s.loop.tasks|
    ensures HandedTo(Step(s, TurnCall(i)), w) && !WakesUp(s, i)
  {
    OnlyTheFirstWakesUp(s.loop.tasks, i);
    TakeResume(s.loop.tasks, i);
    assert DropAt(s.loop.tasks, i)[0] == s.loop.tasks[0];
  }

  lemma MeanwhileStep(s: State, w: OpId, e: Event)
    requires HandedTo(s, w) && Meanwhile(e)
    ensures HandedTo(Step(s, e), w) && (e.TurnCall? ==> !WakesUp(s, e.i))
  {
    match e
    case LockCall => EnterResumes(s.loop, s.started, !s.locked);
    case TryLockCall =>
    case CancelCall(op) => MeanwhileCancel(s, w, op);
    case TurnCall(i) => if i < |s.loop.tasks| { MeanwhileTurn(s, w, i); }
  }

  ghost predicate Contended(es: seq<Event>) {
    exists e :: e in es && Contends(e)
  }

  lemma ContendedNext(es: seq<Event>, e: Event)
    ensures Contended(es + [e]) <==> Contended(es) || Contends(e)
  {
    if Contended(es) {
      var x :| x in es && Contends(x);
      assert x in es + [e];
    } else if Contends(e) {
      assert e in es + [e];
    }
  }

  lemma {:induction false} MeanwhileSteps(s: State, w: OpId, es: seq<Event>)
    requires HandedTo(s, w) && forall e :: e in es ==> Meanwhile(e)
    ensures HandedTo(Steps(s, es), w)
    ensures TakenSince(s, es) <==> Contended(es)
  {
    if es != [] {
      var init, last := es[..|es| - 1], es[|es| - 1];
      assert es == init + [last];
      MeanwhileSteps(s, w, init);
      MeanwhileStep(Steps(s, init), w, last);
      ContendedNext(init, last);
    }
  }

  lemma HandedTurn(s: State, w: OpId)
    requires HandedTo(s, w)
    ensures Step(s, TurnCall(0)).acquired == s.acquired + if s.locked then [] else [w]
    ensures Step(s, TurnCall(0)).loop.sem.waiters == s.loop.sem.waiters + if s.locked then [w] else []
  {
  }

  /** Meanwhile the handoff stays as it is, except that a contender locks the mutex. */
  lemma HandoffMeanwhile(s: State, es: seq<Event>)
    requires HeldAndIdle(s) && s.loop.sem.waiters != [] && forall e :: e in es ==> Meanwhile(e)
    ensures var v := Steps(Step(s, UnlockCall(AHolder(s))), es);
      HandedTo(v, s.loop.sem.waiters[0]) && (v.locked <==> Contended(es))
  {
    var u := Step(s, UnlockCall(AHolder(s)));
    HandedOver(s);
    MeanwhileSteps(u, s.loop.sem.waiters[0], es);
    LockedSince(u, es);
  }

  lemma HandedOver(s: State)
    requires HeldAndIdle(s) && s.loop.sem.waiters != []
    ensures var u := Step(s, UnlockCall(AHolder(s)));
      HandedTo(u, s.loop.sem.waiters[0]) && !u.locked
  {
    ReleaseResumes(s.loop);
  }

  /** The holder of a contended mutex unlocks, which resumes the operation parked
      longest; calls and later turns in which nobody unlocks come before that
      operation has its turn. The turn gives it the mutex if and only if nobody
      has called lock or try_lock among them; otherwise it goes behind everyone parked. */
  lemma HandoffIff(s: State, es: seq<Event>)
    requires HeldAndIdle(s) && s.loop.sem.waiters != [] && forall e :: e in es ==> Meanwhile(e)
    ensures
      var w := s.loop.sem.waiters[0];
      var v := Steps(Step(s, UnlockCall(AHolder(s))), es);
      var r, contended := Step(v, TurnCall(0)), Contended(es);
      && v.loop.tasks != [] && v.loop.tasks[0] == Resume(w, Success)
      && r.acquired == v.acquired + (if contended then [] else [w])
      && r.loop.sem.waiters == v.loop.sem.waiters + (if contended then [w] else [])
  {
    HandoffMeanwhile(s, es);
    HandedTurn(Steps(Step(s, UnlockCall(AHolder(s))), es), s.loop.sem.waiters[0]);
  }

  // ----- Runs that reach the exceptions

  const HELD: seq<Event> := [LockCall, TurnCall(0)]

  lemma HeldRun()
    ensures Run(HELD)
         == State(true, Loop(Sem(1, []), [], [Completion(0, Success)], [0], 0), 1, multiset{ByLock(0)}, [0])
  {
    assert Run([]) == MutexSpec.Start();
    RunExtend([], LockCall);
    RunExtend([LockCall], TurnCall(0));
    assert [] + [LockCall] == [LockCall] && [LockCall] + [TurnCall(0)] == HELD;
  }

  /** Operation 0 holds the mutex and operation 1 has taken the permit left over. */
  lemma LeftoverRun()
    ensures Run(HELD + [LockCall])
         == State(true, Loop(Sem(0, []), [Resume(1, Success)], [Completion(0, Success)], [0], 1), 2,
                  multiset{ByLock(0)}, [0])
  {
    HeldRun();
    RunExtend(HELD, LockCall);
    OneResume(1, Success, Success);
  }

  /** Operation 0 holds the mutex and operation 1 is parked. */
  const CONTENDED: seq<Event> := HELD + [LockCall] + [TurnCall(0)]

  lemma ContendedRun()
    ensures Run(CONTENDED)
         == State(true, Loop(Sem(0, [1]), [], [Completion(0, Success)], [0], 1), 2, multiset{ByLock(0)}, [0])
  {
    LeftoverRun();
    RunExtend(HELD + [LockCall], TurnCall(0));
    assert Resumed([], Success) == [];
  }

  /** Operation 0 has unlocked, which resumes operation 1. */
  const HANDED: seq<Event> := CONTENDED + [UnlockCall(ByLock(0))]

  lemma HandedRun()
    ensures Run(HANDED)
         == State(false, Loop(Sem(0, []), [Resume(1, Success)], [Completion(0, Success)], [0], 2), 2, multiset{}, [0])
  {
    ContendedRun();
    RunExtend(CONTENDED, UnlockCall(ByLock(0)));
    OneResume(1, Success, Success);
  }

  /** If operation 2 locks before operation 1 has its turn, 1 is parked again although it was called first. */
  lemma NewcomerOvertakes()
    ensures Run(HANDED + [LockCall] + [TurnCall(0)]).acquired == [0, 2]
    ensures Run(HANDED + [LockCall] + [TurnCall(0)]).loop.sem.waiters == [1]
  {
    HandedRun();
    RunExtend(HANDED, LockCall);
    RunExtend(HANDED + [LockCall], TurnCall(0));
  }

  /** So it is if somebody calls try_lock. */
  lemma TryLockOvertakes()
    ensures Run(HANDED + [TryLockCall] + [TurnCall(0)]).acquired == [0]
    ensures Run(HANDED + [TryLockCall] + [TurnCall(0)]).loop.sem.waiters == [1]
  {
    HandedRun();
    RunExtend(HANDED, TryLockCall);
    RunExtend(HANDED + [TryLockCall], TurnCall(0));
  }

  /** But if that caller unlocks in time, operation 1 acquires the mutex after all. */
  lemma HandoffAfterAll()
    ensures Run(HANDED + [TryLockCall] + [UnlockCall(ByTry)] + [TurnCall(0)]).acquired == [0, 1]
    ensures Disciplined(Run(HANDED + [TryLockCall]), UnlockCall(ByTry))
  {
    HandedRun();
    RunExtend(HANDED, TryLockCall);
    RunExtend(HANDED + [TryLockCall], UnlockCall(ByTry));
    RunExtend(HANDED + [TryLockCall] + [UnlockCall(ByTry)], TurnCall(0));
  }

  /** The leftover permit of a new mutex sends operation 1 behind operation 2, with no unlock at all. */
  lemma LeftoverPermitOvertakes()
    ensures Run(HELD + [LockCall] + [LockCall] + [TurnCall(0)]).loop.sem.waiters == [2, 1]
  {
    LeftoverRun();
    RunExtend(HELD + [LockCall], LockCall);
    RunExtend(HELD + [LockCall] + [LockCall], TurnCall(0));
  }

  /** The uncontended unlock of operation 0 leaves a second permit. Operation 1 locks
      next; operations 2 and 3 take the two permits, so that 4 is parked before 2 is. */
  const TWO_PERMITS: seq<Event> := HELD + [UnlockCall(ByLock(0))] + [LockCall] + [TurnCall(0)]

  lemma TwoPermitsRun()
    ensures Run(TWO_PERMITS)
         == State(true, Loop(Sem(2, []), [], [Completion(0, Success), Completion(1, Success)], [0, 1], 0), 2,
                  multiset{ByLock(1)}, [0, 1])
  {
    HeldRun();
    RunExtend(HELD, UnlockCall(ByLock(0)));
    RunExtend(HELD + [UnlockCall(ByLock(0))], LockCall);
    RunExtend(HELD + [UnlockCall(ByLock(0))] + [LockCall], TurnCall(0));
    assert multiset{ByLock(0)} - multiset{ByLock(0)} == multiset{};
  }

  lemma TwoPermitsOvertake()
    ensures Run(TWO_PERMITS + [LockCall] + [LockCall] + [LockCall] + [TurnCall(0)]).loop.sem.waiters == [4, 2]
  {
    var a, b := TWO_PERMITS + [LockCall], TWO_PERMITS + [LockCall] + [LockCall];
    TwoPermitsRun();
    RunExtend(TWO_PERMITS, LockCall);
    RunExtend(a, LockCall);
    assert Run(b).loop.tasks == [Resume(2, Success), Resume(3, Success)] && Run(b).loop.sem == Sem(0, []);
    RunExtend(b, LockCall);
    RunExtend(b + [LockCall], TurnCall(0));
  }
}
