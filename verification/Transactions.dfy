/**
 Transactions over transfer latches as threads execute them: locking, testing,
 and for each latch in turn one write and one unlock.  Transactions interleave at
 every step, whichever threads run them; one thread may have several under way.
*/
module Transactions {
  import opened Spec = AtomicTransactions

  /** Where a transaction is, with the latches whose mutexes it still holds.
      Checking: mutexes locked, may_commit not tested yet.
      Open: the transaction object exists and may commit.
      Committing: written tells whether the first latch left is already marked transferred.
      Releasing: only unlocking is left; rollback tells whether by the rollback of an
      open transaction or its destructor, and not after a denial. */
  datatype Pc =
    | Idle
    | Checking(latches: seq<LatchId>)
    | Open(latches: seq<LatchId>)
    | Committing(latches: seq<LatchId>, written: bool)
    | Releasing(latches: seq<LatchId>, rollback: bool)

  datatype System = System(transferred: set<LatchId>, owner: map<LatchId, TxnId>, pcs: map<TxnId, Pc>)

  datatype Action =
    | BeginAction(txn: TxnId, latches: seq<LatchId>)
    | TestAction(txn: TxnId)
    | CommitAction(txn: TxnId)
    | RollbackAction(txn: TxnId)
    | ContinueAction(txn: TxnId)
    | ResetAction(latch: LatchId)

  function PcOf(s: System, t: TxnId): Pc {
    if t in s.pcs then s.pcs[t] else Idle
  }

  function Start(): System {
    System({}, map[], map[])
  }

  /** begin waits for all mutexes and takes them at once; reset is for a latch nobody uses. */
  ghost predicate Enabled(s: System, a: Action) {
    match a
    case BeginAction(t, ls) => PcOf(s, t).Idle? && Names(ls) && forall l :: l in ls ==> l !in s.owner
    case TestAction(t) => PcOf(s, t).Checking?
    case CommitAction(t) => PcOf(s, t).Open? && PcOf(s, t).latches != []
    case RollbackAction(t) => PcOf(s, t).Open?
    case ContinueAction(t) => (PcOf(s, t).Committing? || PcOf(s, t).Releasing?) && PcOf(s, t).latches != []
    case ResetAction(l) => l !in s.owner
  }

  function MayCommit(s: System, ls: seq<LatchId>): bool {
    forall l :: l in ls ==> l !in s.transferred
  }

  function Goto(s: System, t: TxnId, pc: Pc): System {
    s.(pcs := s.pcs[t := pc])
  }

  /** Marks the first latch of a commit. */
  function Write(s: System, t: TxnId, ls: seq<LatchId>): System
    requires ls != []
  {
    Goto(s, t, Committing(ls, true)).(transferred := s.transferred + {ls[0]})
  }

  /** Unlocks the first latch left; more is where the transaction goes if others are left. */
  function Unlock(s: System, t: TxnId, ls: seq<LatchId>, more: Pc): System
    requires ls != []
  {
    Goto(s, t, if |ls| == 1 then Idle else more).(owner := s.owner - {ls[0]})
  }

  function Step(s: System, a: Action): System
    requires Enabled(s, a)
  {
    match a
    case BeginAction(t, ls) =>
      Goto(s, t, Checking(ls)).(owner := s.owner + map l | l in ls :: t)
    case TestAction(t) =>
      var ls := PcOf(s, t).latches;
      Goto(s, t, if MayCommit(s, ls) then Open(ls) else Releasing(ls, false))
    case CommitAction(t) => Write(s, t, PcOf(s, t).latches)
    case RollbackAction(t) => Goto(s, t, Releasing(PcOf(s, t).latches, true))
    case ContinueAction(t) =>
      var pc := PcOf(s, t);
      if pc.Releasing? then Unlock(s, t, pc.latches, Releasing(pc.latches[1..], pc.rollback))
      else if !pc.written then Write(s, t, pc.latches)
      else Unlock(s, t, pc.latches, Committing(pc.latches[1..], false))
    case ResetAction(l) => s.(transferred := s.transferred - {l})
  }

  // ----- Latch discipline

  /** The latches whose mutexes a transaction is to unlock. */
  function Holds(pc: Pc): seq<LatchId> {
    if pc.Idle? then [] else pc.latches
  }

  /** A transaction holds the mutexes of exactly the latches it has still to unlock. */
  ghost predicate OwnsWhatItHolds(s: System) {
    && (forall t, l :: l in Holds(PcOf(s, t)) ==> l in s.owner && s.owner[l] == t)
    && (forall l :: l in s.owner ==> l in Holds(PcOf(s, s.owner[l])))
  }

  /** The points from which a transaction commits or rolls back its latches, each
      of which asserts that it is not committed. */
  predicate Asserts(pc: Pc) {
    pc.Open? || (pc.Committing? && !pc.written) || (pc.Releasing? && pc.rollback)
  }

  /** A transaction that may commit finds its latches uncommitted, and the commit
      or rollback keeps those not reached yet so. */
  ghost predicate Disciplined(pc: Pc, transferred: set<LatchId>) {
    && (!pc.Idle? ==> Names(pc.latches))
    && (Asserts(pc) ==> forall l :: l in pc.latches ==> l !in transferred)
    && (pc.Committing? && pc.written ==>
          pc.latches[0] in transferred && forall l :: l in pc.latches[1..] ==> l !in transferred)
  }

  ghost predicate Invariant(s: System) {
    OwnsWhatItHolds(s) && forall t :: Disciplined(PcOf(s, t), s.transferred)
  }

  lemma NamesTail(ls: seq<LatchId>)
    requires Names(ls)
    ensures forall l :: l in ls <==> l == ls[0] || l in ls[1..]
    ensures ls[0] !in ls[1..]
    ensures |ls| > 1 ==> Names(ls[1..])
  {
  }

  lemma BeginKeeps(s: System, t: TxnId, ls: seq<LatchId>)
    requires Invariant(s) && Enabled(s, BeginAction(t, ls))
    ensures Invariant(Step(s, BeginAction(t, ls)))
  {
    var s' := Step(s, BeginAction(t, ls));
    assert forall u :: PcOf(s', u) == if u == t then Checking(ls) else PcOf(s, u);
    BeginOwns(s, t, ls);
  }

  lemma BeginOwns(s: System, t: TxnId, ls: seq<LatchId>)
    requires OwnsWhatItHolds(s) && Enabled(s, BeginAction(t, ls))
    ensures OwnsWhatItHolds(Step(s, BeginAction(t, ls)))
  {
    var s' := Step(s, BeginAction(t, ls));
    assert forall u :: Holds(PcOf(s', u)) == if u == t then ls else Holds(PcOf(s, u));
    forall u, l | l in Holds(PcOf(s', u)) ensures l in s'.owner && s'.owner[l] == u {
      assert u != t ==> l in Holds(PcOf(s, u));
    }
    forall l | l in s'.owner ensures l in Holds(PcOf(s', s'.owner[l])) {
      assert l !in ls ==> l in Holds(PcOf(s, s.owner[l]));
    }
  }

  /** A transaction that keeps its locks may move to another point that its latches allow. */
  lemma GotoKeeps(s: System, t: TxnId, pc: Pc)
    requires Invariant(s) && Holds(pc) == Holds(PcOf(s, t)) && Disciplined(pc, s.transferred)
    ensures Invariant(Goto(s, t, pc))
  {
    assert forall u :: PcOf(Goto(s, t, pc), u) == if u == t then pc else PcOf(s, u);
  }

  lemma WriteKeeps(s: System, t: TxnId)
    requires Invariant(s)
    requires PcOf(s, t).Open? || (PcOf(s, t).Committing? && !PcOf(s, t).written)
    ensures Invariant(Write(s, t, PcOf(s, t).latches))
  {
    var ls := PcOf(s, t).latches;
    NamesTail(ls);
    var s' := Write(s, t, ls);
    assert forall u :: PcOf(s', u) == if u == t then Committing(ls, true) else PcOf(s, u);
    assert OwnsWhatItHolds(s');
    assert s.owner[ls[0]] == t;
    forall u ensures Disciplined(PcOf(s', u), s'.transferred) {
      var pc := PcOf(s, u);
      assert u != t ==> ls[0] !in Holds(pc);
      if u != t && !pc.Idle? {
        NamesTail(pc.latches);
      }
    }
  }

  lemma UnlockKeeps(s: System, t: TxnId, ls: seq<LatchId>, more: Pc)
    requires Invariant(s) && !PcOf(s, t).Idle? && ls == PcOf(s, t).latches
    requires !more.Idle? && more.latches == ls[1..] && (|ls| > 1 ==> Disciplined(more, s.transferred))
    ensures Invariant(Unlock(s, t, ls, more))
  {
    var s' := Unlock(s, t, ls, more);
    assert forall u :: PcOf(s', u) == if u == t then (if |ls| == 1 then Idle else more) else PcOf(s, u);
    UnlockOwns(s, t, ls, more);
  }

  lemma UnlockOwns(s: System, t: TxnId, ls: seq<LatchId>, more: Pc)
    requires OwnsWhatItHolds(s) && !PcOf(s, t).Idle? && ls == PcOf(s, t).latches && Names(ls)
    requires !more.Idle? && more.latches == ls[1..]
    ensures OwnsWhatItHolds(Unlock(s, t, ls, more))
  {
    NamesTail(ls);
    var s' := Unlock(s, t, ls, more);
    assert forall u :: Holds(PcOf(s', u)) == if u == t then ls[1..] else Holds(PcOf(s, u));
    assert ls[0] in Holds(PcOf(s, t)) && s.owner[ls[0]] == t;
    forall u, l | l in Holds(PcOf(s', u)) ensures l in s'.owner && s'.owner[l] == u {
      assert l in Holds(PcOf(s, u));
    }
    forall l | l in s'.owner ensures l in Holds(PcOf(s', s'.owner[l])) {
      assert l in Holds(PcOf(s, s.owner[l]));
    }
  }

  lemma ContinueKeeps(s: System, t: TxnId)
    requires Invariant(s) && Enabled(s, ContinueAction(t))
    ensures Invariant(Step(s, ContinueAction(t)))
  {
    var pc := PcOf(s, t);
    NamesTail(pc.latches);
    if pc.Releasing? {
      UnlockKeeps(s, t, pc.latches, Releasing(pc.latches[1..], pc.rollback));
    } else if pc.written {
      UnlockKeeps(s, t, pc.latches, Committing(pc.latches[1..], false));
    } else {
      WriteKeeps(s, t);
    }
  }

  lemma InvariantStep(s: System, a: Action)
    requires Invariant(s) && Enabled(s, a)
    ensures Invariant(Step(s, a))
  {
    match a
    case BeginAction(t, ls) => BeginKeeps(s, t, ls);
    case TestAction(t) =>
      var ls := PcOf(s, t).latches;
      GotoKeeps(s, t, if MayCommit(s, ls) then Open(ls) else Releasing(ls, false));
    case CommitAction(t) => WriteKeeps(s, t);
    case RollbackAction(t) => GotoKeeps(s, t, Releasing(PcOf(s, t).latches, true));
    case ContinueAction(t) => ContinueKeeps(s, t);
    case ResetAction(l) =>
      assert forall t :: PcOf(Step(s, a), t) == PcOf(s, t);
  }

  // ----- Refinement

  /** The specification state: a commit counts for all its latches from its first
      write on, which nobody can notice because the latches not written yet are
      locked by the committing transaction. */
  function Abs(s: System): Spec.State {
    Spec.State(
      s.transferred + (set l | l in s.owner && PcOf(s, s.owner[l]).Committing?),
      map t | t in s.pcs && s.pcs[t].Open? :: s.pcs[t].latches)
  }

  /** What a step shows: a test under the locks, the first write of a commit, a rollback, a reset. */
  function Observe(s: System, a: Action): seq<Observation> {
    match a
    case BeginAction(_, _) => []
    case TestAction(t) =>
      if PcOf(s, t).Idle? then [] else [Began(t, PcOf(s, t).latches, MayCommit(s, PcOf(s, t).latches))]
    case CommitAction(t) => if PcOf(s, t).Idle? then [] else [Committed(t, PcOf(s, t).latches)]
    case RollbackAction(t) => if PcOf(s, t).Idle? then [] else [RolledBack(t, PcOf(s, t).latches)]
    case ContinueAction(_) => []
    case ResetAction(l) => [Reset(l)]
  }

  ghost predicate Simulates(s: System, a: Action, s': System) {
    var o := Observe(s, a);
    if o == [] then Abs(s') == Abs(s) else Allowed(Abs(s), o[0]) && Abs(s') == After(Abs(s), o[0])
  }

  ghost predicate CountsAsCommitted(s: System, l: LatchId) {
    l in s.transferred || (l in s.owner && PcOf(s, s.owner[l]).Committing?)
  }

  lemma AbsIs(s: System, x: Spec.State)
    requires forall l :: l in x.committed <==> CountsAsCommitted(s, l)
    requires forall t :: t in x.open <==> PcOf(s, t).Open?
    requires forall t :: t in x.open ==> x.open[t] == PcOf(s, t).latches
    ensures Abs(s) == x
  {
    assert forall t :: t in Abs(s).open <==> PcOf(s, t).Open?;
    assert Abs(s).open == x.open;
    assert Abs(s).committed == x.committed;
  }

  lemma BeginSimulates(s: System, t: TxnId, ls: seq<LatchId>)
    requires Invariant(s) && Enabled(s, BeginAction(t, ls))
    ensures Simulates(s, BeginAction(t, ls), Step(s, BeginAction(t, ls)))
  {
    var s' := Step(s, BeginAction(t, ls));
    assert forall u :: PcOf(s', u) == if u == t then Checking(ls) else PcOf(s, u);
    assert forall l :: l in s'.owner ==> s'.owner[l] == if l in ls then t else s.owner[l];
    assert forall l :: l in s.owner ==> s.owner[l] != t;
    assert forall l :: CountsAsCommitted(s', l) <==> CountsAsCommitted(s, l);
    AbsIs(s', Abs(s));
  }

  /** Mutual exclusion of the latches' mutexes. */
  lemma OneHolder(s: System, t: TxnId, u: TxnId, l: LatchId)
    requires OwnsWhatItHolds(s) && t != u && l in Holds(PcOf(s, t))
    ensures l !in Holds(PcOf(s, u))
  {
    assert l in s.owner && s.owner[l] == t;
  }

  /** Under the locks a test sees the specification's latches, and no open transaction on them. */
  lemma LockedView(s: System, t: TxnId)
    requires Invariant(s) && !PcOf(s, t).Idle? && !PcOf(s, t).Committing?
    ensures forall l :: l in PcOf(s, t).latches ==> (l in Abs(s).committed <==> l in s.transferred)
    ensures !PcOf(s, t).Open? ==> forall l :: l in PcOf(s, t).latches ==> Free(Abs(s), l)
  {
    forall l | l in PcOf(s, t).latches ensures s.owner[l] == t {
      assert l in Holds(PcOf(s, t));
    }
    if !PcOf(s, t).Open? {
      forall l, u | l in PcOf(s, t).latches && u in Abs(s).open ensures l !in Abs(s).open[u] {
        assert u != t && PcOf(s, u).Open?;
        OneHolder(s, t, u, l);
      }
    }
  }

  /** Moving between points that hold the same locks, neither of them committing. */
  lemma GotoSimulates(s: System, a: Action, pc: Pc)
    requires Invariant(s) && Enabled(s, a) && (a.TestAction? || a.RollbackAction?)
    requires var ls := PcOf(s, a.txn).latches;
      pc == (if a.TestAction? && MayCommit(s, ls) then Open(ls) else Releasing(ls, a.RollbackAction?))
    ensures Simulates(s, a, Goto(s, a.txn, pc))
  {
    var t, s' := a.txn, Goto(s, a.txn, pc);
    LockedView(s, t);
    assert forall u :: PcOf(s', u) == if u == t then pc else PcOf(s, u);
    assert forall l :: CountsAsCommitted(s', l) <==> CountsAsCommitted(s, l);
    AbsIs(s', After(Abs(s), Observe(s, a)[0]));
  }

  /** The first write of a commit is its one effect; the later writes have none. */
  lemma WriteSimulates(s: System, a: Action)
    requires Invariant(s) && Enabled(s, a) && (a.CommitAction? || a.ContinueAction?)
    requires var pc := PcOf(s, a.txn); pc.Open? || (pc.Committing? && !pc.written)
    ensures Simulates(s, a, Write(s, a.txn, PcOf(s, a.txn).latches))
  {
    var t, ls := a.txn, PcOf(s, a.txn).latches;
    var s' := Write(s, t, ls);
    assert forall u :: PcOf(s', u) == if u == t then Committing(ls, true) else PcOf(s, u);
    forall l ensures l in s.owner && s.owner[l] == t <==> l in ls {
      assert l in ls ==> l in Holds(PcOf(s, t));
    }
    assert forall l :: CountsAsCommitted(s', l) <==> CountsAsCommitted(s, l) || l in ls;
    if a.CommitAction? {
      LockedView(s, t);
      AbsIs(s', After(Abs(s), Committed(t, ls)));
    } else {
      AbsIs(s', Abs(s));
    }
  }

  ghost predicate Unlocks(pc: Pc, more: Pc) {
    && !pc.Idle? && pc.latches != []
    && ((pc.Releasing? && more == Releasing(pc.latches[1..], pc.rollback))
        || (pc.Committing? && pc.written && more == Committing(pc.latches[1..], false)))
  }

  lemma UnlockCounts(s: System, t: TxnId, more: Pc, l: LatchId)
    requires Invariant(s) && Enabled(s, ContinueAction(t)) && Unlocks(PcOf(s, t), more)
    ensures CountsAsCommitted(Unlock(s, t, PcOf(s, t).latches, more), l) <==> CountsAsCommitted(s, l)
  {
    var ls := PcOf(s, t).latches;
    NamesTail(ls);
    if l in ls {
      assert l in Holds(PcOf(s, t)) && s.owner[l] == t;
    } else if l in s.owner {
      assert l in Holds(PcOf(s, s.owner[l]));
      assert s.owner[l] != t;
    }
  }

  lemma UnlockSimulates(s: System, t: TxnId, more: Pc)
    requires Invariant(s) && Enabled(s, ContinueAction(t)) && Unlocks(PcOf(s, t), more)
    ensures Simulates(s, ContinueAction(t), Unlock(s, t, PcOf(s, t).latches, more))
  {
    var ls := PcOf(s, t).latches;
    var s' := Unlock(s, t, ls, more);
    assert forall u :: PcOf(s', u) == if u == t then (if |ls| == 1 then Idle else more) else PcOf(s, u);
    forall l ensures CountsAsCommitted(s', l) <==> CountsAsCommitted(s, l) {
      UnlockCounts(s, t, more, l);
    }
    AbsIs(s', Abs(s));
  }

  lemma ResetSimulates(s: System, l: LatchId)
    requires Invariant(s) && Enabled(s, ResetAction(l))
    ensures Simulates(s, ResetAction(l), Step(s, ResetAction(l)))
  {
    var s' := Step(s, ResetAction(l));
    assert forall u :: PcOf(s', u) == PcOf(s, u);
    forall t | t in Abs(s).open ensures l !in Abs(s).open[t] {
      assert PcOf(s, t).Open? && (l in Holds(PcOf(s, t)) ==> l in s.owner);
    }
    AbsIs(s', After(Abs(s), Reset(l)));
  }

  lemma StepSimulates(s: System, a: Action)
    requires Invariant(s) && Enabled(s, a)
    ensures Simulates(s, a, Step(s, a))
  {
    match a
    case BeginAction(t, ls) => BeginSimulates(s, t, ls);
    case TestAction(t) =>
      var ls := PcOf(s, t).latches;
      GotoSimulates(s, a, if MayCommit(s, ls) then Open(ls) else Releasing(ls, false));
    case CommitAction(_) => WriteSimulates(s, a);
    case RollbackAction(t) => GotoSimulates(s, a, Releasing(PcOf(s, t).latches, true));
    case ContinueAction(t) =>
      var pc := PcOf(s, t);
      if pc.Releasing? {
        UnlockSimulates(s, t, Releasing(pc.latches[1..], pc.rollback));
      } else if pc.written {
        UnlockSimulates(s, t, Committing(pc.latches[1..], false));
      } else {
        WriteSimulates(s, a);
      }
    case ResetAction(l) => ResetSimulates(s, l);
  }

  // ----- Whole runs

  /** An action that is not enabled waits: it changes and shows nothing. */
  ghost function Run(actions: seq<Action>): System {
    if actions == [] then Start()
    else
      var s, a := Run(actions[..|actions| - 1]), actions[|actions| - 1];
      if Enabled(s, a) then Step(s, a) else s
  }

  lemma RunExtend(actions: seq<Action>, a: Action)
    requires Enabled(Run(actions), a)
    ensures Run(actions + [a]) == Step(Run(actions), a)
  {
    assert (actions + [a])[..|actions|] == actions;
  }

  ghost function History(actions: seq<Action>): seq<Observation> {
    if actions == [] then []
    else
      var s, a := Run(actions[..|actions| - 1]), actions[|actions| - 1];
      History(actions[..|actions| - 1]) + if Enabled(s, a) then Observe(s, a) else []
  }

  lemma {:induction false} EveryRunKeepsInvariant(actions: seq<Action>)
    ensures Invariant(Run(actions))
  {
    if actions != [] {
      EveryRunKeepsInvariant(actions[..|actions| - 1]);
      var s, a := Run(actions[..|actions| - 1]), actions[|actions| - 1];
      if Enabled(s, a) {
        InvariantStep(s, a);
      }
    }
  }

  /** Commits are atomic: whatever transactions threads run and however they interleave,
      what they observe is a history in which every commit marks all its latches at once. */
  lemma {:induction false} EveryRunIsAtomic(actions: seq<Action>)
    ensures Atomic(History(actions)) && Final(History(actions)) == Abs(Run(actions))
  {
    if actions == [] {
      AbsIs(Start(), Spec.State({}, map[]));
    } else {
      var before := actions[..|actions| - 1];
      var s, a := Run(before), actions[|actions| - 1];
      EveryRunIsAtomic(before);
      EveryRunKeepsInvariant(before);
      if Enabled(s, a) {
        StepSimulates(s, a);
        var o := Observe(s, a);
        assert o == [] || o == [o[0]];
        if o == [] {
          assert History(actions) == History(before);
        } else {
          AtomicExtend(History(before), o[0]);
        }
      } else {
        assert History(actions) == History(before);
      }
    }
  }

  lemma OpenIsExclusive(s: System, t: TxnId, u: TxnId, l: LatchId)
    requires Invariant(s) && PcOf(s, t).Open? && l in PcOf(s, t).latches && u != t
    ensures l in s.owner && s.owner[l] == t && l !in Holds(PcOf(s, u))
    ensures l !in s.transferred && l !in Abs(s).committed
  {
    assert l in Holds(PcOf(s, t));
    OneHolder(s, t, u, l);
    LockedView(s, t);
  }

  /** In every run a transaction that may commit holds the mutex of each of its
      latches, alone, and finds them all uncommitted. */
  lemma MayCommitMeansExclusive(actions: seq<Action>, t: TxnId, u: TxnId, l: LatchId)
    requires PcOf(Run(actions), t).Open? && l in PcOf(Run(actions), t).latches && u != t
    ensures
      var s := Run(actions);
      && l in s.owner && s.owner[l] == t
      && l !in Holds(PcOf(s, u))
      && l !in s.transferred && l !in Final(History(actions)).committed
  {
    EveryRunKeepsInvariant(actions);
    EveryRunIsAtomic(actions);
    OpenIsExclusive(Run(actions), t, u, l);
  }

  /** Whenever no commit is under way, the latches marked transferred are exactly
      those that the observed history has committed and not reset since. */
  lemma MarksMatchHistory(actions: seq<Action>)
    requires forall t :: !PcOf(Run(actions), t).Committing?
    ensures Run(actions).transferred == Final(History(actions)).committed
  {
    EveryRunIsAtomic(actions);
  }

  /** In every run the assertions in commit and rollback hold: no latch that a
      transaction has still to commit, or to roll back, is committed already. */
  lemma AssertionsHold(actions: seq<Action>, t: TxnId, l: LatchId)
    requires Asserts(PcOf(Run(actions), t)) && l in PcOf(Run(actions), t).latches
    ensures l !in Run(actions).transferred
  {
    EveryRunKeepsInvariant(actions);
    assert Disciplined(PcOf(Run(actions), t), Run(actions).transferred);
  }

  // ----- Every lock taken is released once

  ghost function Locks(actions: seq<Action>, t: TxnId, l: LatchId): nat {
    if actions == [] then 0
    else
      var s, a := Run(actions[..|actions| - 1]), actions[|actions| - 1];
      Locks(actions[..|actions| - 1], t, l) +
      if Enabled(s, a) && a.BeginAction? && a.txn == t && l in a.latches then 1 else 0
  }

  ghost predicate UnlocksFirst(pc: Pc) {
    pc.Releasing? || (pc.Committing? && pc.written)
  }

  ghost function Unlocked(actions: seq<Action>, t: TxnId, l: LatchId): nat {
    if actions == [] then 0
    else
      var s, a := Run(actions[..|actions| - 1]), actions[|actions| - 1];
      Unlocked(actions[..|actions| - 1], t, l) +
      if Enabled(s, a) && a == ContinueAction(t) && UnlocksFirst(PcOf(s, t)) && PcOf(s, t).latches[0] == l
      then 1 else 0
  }

  lemma HoldsStep(s: System, a: Action, t: TxnId)
    requires Invariant(s) && Enabled(s, a)
    ensures Holds(PcOf(Step(s, a), t)) ==
      if a.ResetAction? || a.txn != t then Holds(PcOf(s, t))
      else if a.BeginAction? then a.latches
      else if a.ContinueAction? && UnlocksFirst(PcOf(s, t)) then PcOf(s, t).latches[1..]
      else Holds(PcOf(s, t))
  {
  }

  /** In every run a transaction has locked each mutex exactly as often as it has
      unlocked it, and once more while the latch is among those it holds. */
  lemma {:induction false} UnlockedAsOftenAsLocked(actions: seq<Action>, t: TxnId, l: LatchId)
    ensures Locks(actions, t, l)
         == Unlocked(actions, t, l) + if l in Holds(PcOf(Run(actions), t)) then 1 else 0
  {
    if actions != [] {
      var before := actions[..|actions| - 1];
      var s, a := Run(before), actions[|actions| - 1];
      UnlockedAsOftenAsLocked(before, t, l);
      EveryRunKeepsInvariant(before);
      if Enabled(s, a) {
        HoldsStep(s, a, t);
        if !PcOf(s, t).Idle? {
          NamesTail(PcOf(s, t).latches);
        }
      }
    }
  }

  // ----- Progress

  /** How many steps a transaction has still to take until it is idle. */
  function Remaining(pc: Pc): nat {
    match pc
    case Idle => 0
    case Checking(ls) => 2 * |ls| + 2
    case Open(ls) => 2 * |ls| + 1
    case Committing(ls, written) => 2 * |ls| - if written && ls != [] then 1 else 0
    case Releasing(ls, _) => |ls|
  }

  lemma OwnStepsFinish(s: System, t: TxnId, a: Action)
    requires Invariant(s) && Enabled(s, a) && !PcOf(s, t).Idle?
    ensures if a.ResetAction? || a.txn != t then PcOf(Step(s, a), t) == PcOf(s, t)
            else Remaining(PcOf(Step(s, a), t)) < Remaining(PcOf(s, t))
  {
    assert Names(PcOf(s, t).latches);
  }

  /** A transaction waits only to begin: once it has its locks it always has an
      enabled action, each of its steps brings it nearer to idleness, and no other
      transaction takes it further away. Whether its thread is free to take the
      step is the subject of module TransactionThreads. */
  lemma OnceLockedNeverBlocked(actions: seq<Action>, t: TxnId, a: Action)
    requires !PcOf(Run(actions), t).Idle?
    ensures
      var s := Run(actions);
      && (Enabled(s, TestAction(t)) || Enabled(s, CommitAction(t)) || Enabled(s, ContinueAction(t)))
      && (Enabled(s, a) ==>
            if a.ResetAction? || a.txn != t then PcOf(Step(s, a), t) == PcOf(s, t)
            else Remaining(PcOf(Step(s, a), t)) < Remaining(PcOf(s, t)))
  {
    EveryRunKeepsInvariant(actions);
    var s := Run(actions);
    assert Disciplined(PcOf(s, t), s.transferred);
    if Enabled(s, a) {
      OwnStepsFinish(s, t, a);
    }
  }

  /** The transaction takes the steps left of its commit, rollback or denial. */
  ghost function Finish(s: System, t: TxnId): System
    requires Invariant(s)
    decreases Remaining(PcOf(s, t))
  {
    if PcOf(s, t).Committing? || PcOf(s, t).Releasing? then
      assert Disciplined(PcOf(s, t), s.transferred);
      OwnStepsFinish(s, t, ContinueAction(t));
      InvariantStep(s, ContinueAction(t));
      Finish(Step(s, ContinueAction(t)), t)
    else s
  }

  function AsSet(ls: seq<LatchId>): set<LatchId> {
    set l | l in ls
  }

  /** Marking and unlocking the first latch and then the others is doing it to all. */
  lemma FirstAndRest(marked: set<LatchId>, owner: map<LatchId, TxnId>, ls: seq<LatchId>)
    requires ls != []
    ensures marked + {ls[0]} + AsSet(ls) == marked + AsSet(ls)
    ensures ls[0] in marked ==> marked + AsSet(ls[1..]) == marked + AsSet(ls)
    ensures owner - {ls[0]} - AsSet(ls[1..]) == owner - AsSet(ls)
    ensures |ls| == 1 ==> AsSet(ls) == {ls[0]}
  {
    assert AsSet(ls) == {ls[0]} + AsSet(ls[1..]) by {
      assert ls == [ls[0]] + ls[1..];
    }
  }

  lemma ContinueEffect(s: System, t: TxnId)
    requires Invariant(s) && (PcOf(s, t).Committing? || PcOf(s, t).Releasing?)
    ensures
      var pc := PcOf(s, t);
      && pc.latches != [] && Enabled(s, ContinueAction(t))
      && var next := Step(s, ContinueAction(t));
      if pc.Committing? && !pc.written then
        && PcOf(next, t) == Committing(pc.latches, true)
        && next.transferred == s.transferred + {pc.latches[0]} && next.owner == s.owner
      else
        && (pc.Committing? ==> pc.latches[0] in s.transferred)
        && (if |pc.latches| == 1 then PcOf(next, t) == Idle
            else !PcOf(next, t).Idle? && PcOf(next, t).latches == pc.latches[1..]
                 && (PcOf(next, t).Committing? <==> pc.Committing?) && (PcOf(next, t).Releasing? <==> pc.Releasing?))
        && next.transferred == s.transferred && next.owner == s.owner - {pc.latches[0]}
  {
    assert Disciplined(PcOf(s, t), s.transferred);
  }

  lemma FinishUnfolds(s: System, t: TxnId)
    requires Invariant(s)
    ensures
      if PcOf(s, t).Committing? || PcOf(s, t).Releasing? then
        && Enabled(s, ContinueAction(t)) && Invariant(Step(s, ContinueAction(t)))
        && Finish(s, t) == Finish(Step(s, ContinueAction(t)), t)
        && Remaining(PcOf(Step(s, ContinueAction(t)), t)) < Remaining(PcOf(s, t))
      else Finish(s, t) == s
  {
    assert Disciplined(PcOf(s, t), s.transferred);
    if PcOf(s, t).Committing? || PcOf(s, t).Releasing? {
      OwnStepsFinish(s, t, ContinueAction(t));
      InvariantStep(s, ContinueAction(t));
    }
  }

  /** What the caller sees of it all: a commit ends with every latch marked, a
      rollback or denial with none, and either with every mutex unlocked. */
  lemma {:induction false} FinishedTransaction(s: System, t: TxnId)
    requires Invariant(s) && (PcOf(s, t).Committing? || PcOf(s, t).Releasing?)
    ensures
      var ls, r := AsSet(PcOf(s, t).latches), Finish(s, t);
      && PcOf(r, t).Idle?
      && r.transferred == s.transferred + (if PcOf(s, t).Committing? then ls else {})
      && r.owner == s.owner - ls
    decreases Remaining(PcOf(s, t))
  {
    var ls := PcOf(s, t).latches;
    ContinueEffect(s, t);
    FinishUnfolds(s, t);
    FirstAndRest(s.transferred, s.owner, ls);
    var next := Step(s, ContinueAction(t));
    if PcOf(next, t).Idle? {
      FinishUnfolds(next, t);
    } else {
      FinishedTransaction(next, t);
    }
  }
}
