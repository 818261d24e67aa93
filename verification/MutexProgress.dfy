/** What the executor achieves for the mutex when it is left alone. */
module MutexProgress {
  import opened Sequences
  import opened Tasks
  import opened SemaphoreSpec
  import opened ComposedWait
  import opened MutexSpec

  /** The executor runs the queued tasks that picks selects, one after the other. */
  function Turns(s: State, picks: seq<nat>): State {
    if picks == [] then s
    else Step(Turns(s, picks[..|picks| - 1]), TurnCall(picks[|picks| - 1]))
  }

  /** Each pick is a task that is queued when its turn comes. */
  ghost predicate Runnable(s: State, picks: seq<nat>) {
    picks == [] || (Runnable(s, picks[..|picks| - 1])
                    && picks[|picks| - 1] < |Turns(s, picks[..|picks| - 1]).loop.tasks|)
  }

  /** The executor runs until its queue is empty. */
  ghost predicate Settles(s: State, picks: seq<nat>) {
    Runnable(s, picks) && Turns(s, picks).loop.tasks == []
  }

  lemma {:induction false} TurnsAreSafe(s: State, picks: seq<nat>)
    requires Safe(s)
    ensures Safe(Turns(s, picks))
  {
    if picks != [] {
      TurnsAreSafe(s, picks[..|picks| - 1]);
      SafeStep(Turns(s, picks[..|picks| - 1]), TurnCall(picks[|picks| - 1]));
    }
  }

  lemma TurnWork(s: State, i: nat)
    requires i < |s.loop.tasks|
    ensures Work(Step(s, TurnCall(i)).loop) == Work(s.loop) - 1
  {
    TurnWorks(s.loop, i, !s.locked);
  }

  /** Spurious passes end: under any schedule, the turns the executor can take
      before it is idle are no more than the leftover permits and queued tasks,
      of which each turn uses up exactly one. */
  lemma {:induction false} SpinTermination(s: State, picks: seq<nat>)
    requires Safe(s) && Runnable(s, picks)
    ensures Work(Turns(s, picks).loop) == Work(s.loop) - |picks| && |picks| <= Work(s.loop)
  {
    TurnsAreSafe(s, picks);
    if picks != [] {
      var before := picks[..|picks| - 1];
      SpinTermination(s, before);
      TurnsAreSafe(s, before);
      TurnWork(Turns(s, before), picks[|picks| - 1]);
    }
  }

  /** The executor always reaches idleness. */
  lemma {:induction false} CanSettle(s: State, picks: seq<nat>) returns (all: seq<nat>)
    requires Safe(s) && Runnable(s, picks)
    ensures picks <= all && Settles(s, all)
    decreases Work(s.loop) - |picks|
  {
    SpinTermination(s, picks);
    if Turns(s, picks).loop.tasks == [] {
      all := picks;
    } else {
      assert (picks + [0])[..|picks|] == picks;
      SpinTermination(s, picks + [0]);
      all := CanSettle(s, picks + [0]);
    }
  }

  lemma {:induction false} TurnsKeepAClaim(s: State, picks: seq<nat>)
    requires Runnable(s, picks) && (s.locked || Resumed(s.loop.tasks, Success) != [])
    ensures Turns(s, picks).locked || Resumed(Turns(s, picks).loop.tasks, Success) != []
  {
    if picks != [] {
      TurnsKeepAClaim(s, picks[..|picks| - 1]);
      TakeResume(Turns(s, picks[..|picks| - 1]).loop.tasks, picks[|picks| - 1]);
    }
  }

  /** A contended unlock is never forgotten: if anyone is parked or resumed, then
      whatever the schedule, the mutex is locked again once the executor is idle. */
  lemma {:induction false} SomeoneGetsTheLock(events: seq<Event>, picks: seq<nat>)
    requires Settles(Run(events), picks)
    requires Run(events).loop.sem.waiters != [] || Resumed(Run(events).loop.tasks, Success) != []
    ensures Turns(Run(events), picks).locked
  {
    EveryRunIsSafe(events);
    TurnsKeepAClaim(Run(events), picks);
  }

  // ----- Fair handoff

  /** A mutex that is held, with every contender parked. */
  ghost predicate HeldAndIdle(s: State) {
    Safe(s) && Exclusive(s) && s.locked && s.loop.tasks == []
  }

  /** Any disciplined run that leaves the mutex locked and the executor idle gets there. */
  lemma {:induction false} RunsReachHeldAndIdle(events: seq<Event>)
    requires DisciplinedRun(events) && Run(events).locked && Run(events).loop.tasks == []
    ensures HeldAndIdle(Run(events))
  {
    EveryRunIsSafe(events);
    EveryDisciplinedRunIsExclusive(events);
  }

  ghost function AHolder(s: State): Holder {
    if s.inside == multiset{} then ByTry else var h :| h in s.inside; h
  }

  /** The holder unlocks, and the executor follows the schedule picks. */
  ghost function Round(s: State, picks: seq<nat>): State {
    Turns(Step(s, UnlockCall(AHolder(s))), picks)
  }

  ghost predicate RoundSettles(s: State, picks: seq<nat>) {
    Settles(Step(s, UnlockCall(AHolder(s))), picks)
  }

  ghost function Rounds(s: State, rounds: seq<seq<nat>>): State {
    if rounds == [] then s else Round(Rounds(s, rounds[..|rounds| - 1]), rounds[|rounds| - 1])
  }

  ghost predicate AllSettle(s: State, rounds: seq<seq<nat>>) {
    rounds == [] || (AllSettle(s, rounds[..|rounds| - 1])
                     && RoundSettles(Rounds(s, rounds[..|rounds| - 1]), rounds[|rounds| - 1]))
  }

  /** The unlock resumes the operation parked longest, and nothing else is queued. */
  lemma HandoffBegins(s: State)
    requires HeldAndIdle(s) && s.loop.sem.waiters != []
    ensures var u := Step(s, UnlockCall(AHolder(s)));
      && Safe(u) && Exclusive(u) && !u.locked && u.inside == multiset{}
      && u.loop.tasks == [Resume(s.loop.sem.waiters[0], Success)] && Work(u.loop) == 1
      && u.loop.sem == Sem(0, s.loop.sem.waiters[1..]) && u.loop.done == s.loop.done
  {
    OneHolder(s);
    SafeStep(s, UnlockCall(AHolder(s)));
    ExclusiveStep(s, UnlockCall(AHolder(s)));
  }

  /** With one unit of work left, the executor settles in one turn of the one task. */
  lemma SettlesInOneTurn(u: State, picks: seq<nat>)
    requires Safe(u) && Settles(u, picks) && Work(u.loop) == 1 && |u.loop.tasks| == 1
    ensures Turns(u, picks) == Step(u, TurnCall(0))
  {
    SpinTermination(u, picks);
    assert |picks| == 1 && picks[..0] == [] && Turns(u, []) == u;
  }

  /** One round passes the lock to the operation parked longest, and to nobody else. */
  lemma HandoffRound(s: State, picks: seq<nat>)
    requires HeldAndIdle(s) && s.loop.sem.waiters != [] && RoundSettles(s, picks)
    ensures var r := Round(s, picks);
      && HeldAndIdle(r)
      && r.loop.sem.waiters == s.loop.sem.waiters[1..]
      && r.loop.done == s.loop.done + [Completion(s.loop.sem.waiters[0], Success)]
      && r.inside == multiset{ByLock(s.loop.sem.waiters[0])}
  {
    var u := Step(s, UnlockCall(AHolder(s)));
    HandoffBegins(s);
    SettlesInOneTurn(u, picks);
    SafeStep(u, TurnCall(0));
    ExclusiveStep(u, TurnCall(0));
    assert DropAt(u.loop.tasks, 0) == [];
  }

  lemma OneHolder(s: State)
    requires HeldAndIdle(s)
    ensures s.inside == multiset{AHolder(s)}
  {
    assert |s.inside| == 1;
    assert s.inside == multiset{AHolder(s)} + (s.inside - multiset{AHolder(s)});
  }

  function Grants(ops: seq<OpId>): (r: seq<Completion>)
    ensures |r| == |ops|
  {
    seq(|ops|, i requires 0 <= i < |ops| => Completion(ops[i], Success))
  }

  /** From a held mutex with everyone parked, n rounds in which the holder unlocks
      and the executor runs until idle, under any schedules, lock the mutex for
      the n operations parked longest, one a round, in parking order. */
  lemma {:induction false} FairHandoff(s: State, rounds: seq<seq<nat>>)
    requires HeldAndIdle(s) && AllSettle(s, rounds) && |rounds| <= |s.loop.sem.waiters|
    ensures var n, w, r := |rounds|, s.loop.sem.waiters, Rounds(s, rounds);
      && HeldAndIdle(r)
      && r.loop.sem.waiters == w[n..]
      && r.loop.done == s.loop.done + Grants(w[..n])
      && (n > 0 ==> r.inside == multiset{ByLock(w[n - 1])})
  {
    if rounds != [] {
      var n, w := |rounds|, s.loop.sem.waiters;
      FairHandoff(s, rounds[..n - 1]);
      HandoffRound(Rounds(s, rounds[..n - 1]), rounds[n - 1]);
      NextGrant(w, n - 1, s.loop.done);
    }
  }

  lemma NextGrant(w: seq<OpId>, n: nat, done: seq<Completion>)
    requires n < |w|
    ensures w[n..][1..] == w[n + 1..] && w[n..][0] == w[n]
    ensures done + Grants(w[..n]) + [Completion(w[n], Success)] == done + Grants(w[..n + 1])
  {
    assert Grants(w[..n + 1]) == Grants(w[..n]) + [Completion(w[n], Success)];
  }
}
