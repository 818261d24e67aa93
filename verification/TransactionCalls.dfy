/**
 What the calls on a transaction come to when nobody interferes: they take place
 at any point of any run, for any number of latches.
*/
module TransactionCalls {
  import opened AtomicTransactions
  import opened Transactions

  /** The latches ls are named once each and nobody holds any of them. */
  ghost predicate Available(s: System, ls: seq<LatchId>) {
    Names(ls) && forall l :: l in ls ==> l !in s.owner
  }

  /** An action that cannot be taken leaves the run where it is. */
  lemma RunWaits(actions: seq<Action>, a: Action)
    requires !Enabled(Run(actions), a)
    ensures Run(actions + [a]) == Run(actions)
  {
    assert (actions + [a])[..|actions|] == actions;
  }

  /** begin_transaction takes all its locks as soon as all of them are free, and until
      then it waits and takes none. */
  lemma BeginLocksIffFree(actions: seq<Action>, t: TxnId, ls: seq<LatchId>)
    requires PcOf(Run(actions), t).Idle? && Names(ls)
    ensures var s, s' := Run(actions), Run(actions + [BeginAction(t, ls)]);
      if forall l :: l in ls ==> l !in s.owner then
        && PcOf(s', t) == Checking(ls) && s'.transferred == s.transferred
        && (forall l :: l in ls ==> l in s'.owner && s'.owner[l] == t)
        && (forall l :: l !in ls ==> (l in s'.owner <==> l in s.owner) && (l in s.owner ==> s'.owner[l] == s.owner[l]))
      else s' == s
  {
    if forall l :: l in ls ==> l !in Run(actions).owner {
      RunExtend(actions, BeginAction(t, ls));
    } else {
      RunWaits(actions, BeginAction(t, ls));
    }
  }

  /** With its locks, the transaction may commit exactly if none of its latches is committed. */
  lemma TestOpensIff(actions: seq<Action>, t: TxnId)
    requires PcOf(Run(actions), t).Checking?
    ensures var s, s' := Run(actions), Run(actions + [TestAction(t)]); var ls := PcOf(s, t).latches;
      && s'.transferred == s.transferred && s'.owner == s.owner
      && PcOf(s', t) == if forall l :: l in ls ==> l !in s.transferred then Open(ls) else Releasing(ls, false)
  {
    RunExtend(actions, TestAction(t));
  }

  /** A transaction that may commit may be rolled back: it marks nothing and is left with its locks to unlock. */
  lemma OpenRollsBack(actions: seq<Action>, t: TxnId)
    requires PcOf(Run(actions), t).Open?
    ensures var s, s' := Run(actions), Run(actions + [RollbackAction(t)]);
      && s'.transferred == s.transferred && s'.owner == s.owner
      && PcOf(s', t) == Releasing(PcOf(s, t).latches, true)
  {
    RunExtend(actions, RollbackAction(t));
  }

  /** A transaction that may commit may be committed: the first mark is made, the rest follows. */
  lemma OpenCommits(actions: seq<Action>, t: TxnId)
    requires PcOf(Run(actions), t).Open?
    ensures var s, s' := Run(actions), Run(actions + [CommitAction(t)]); var ls := PcOf(s, t).latches;
      && ls != [] && s'.transferred == s.transferred + {ls[0]} && s'.owner == s.owner
      && PcOf(s', t) == Committing(ls, true)
  {
    EveryRunKeepsInvariant(actions);
    assert Disciplined(PcOf(Run(actions), t), Run(actions).transferred);
    RunExtend(actions, CommitAction(t));
  }

  /** A latch that nobody holds can be reset, and is then open. */
  lemma ResetReopens(actions: seq<Action>, l: LatchId)
    ensures var s, s' := Run(actions), Run(actions + [ResetAction(l)]);
      && s'.owner == s.owner && s'.pcs == s.pcs
      && s'.transferred == s.transferred - if l in s.owner then {} else {l}
  {
    if l in Run(actions).owner {
      RunWaits(actions, ResetAction(l));
    } else {
      RunExtend(actions, ResetAction(l));
    }
  }

  // ----- Transactions from begin to end

  function Continues(t: TxnId, n: nat): (r: seq<Action>)
    ensures |r| == n
  {
    seq(n, _ => ContinueAction(t))
  }

  lemma HistoryExtend(actions: seq<Action>, a: Action)
    requires Enabled(Run(actions), a)
    ensures History(actions + [a]) == History(actions) + Observe(Run(actions), a)
  {
    assert (actions + [a])[..|actions|] == actions;
  }

  lemma OneContinue(s: System, t: TxnId)
    requires Invariant(s) && (PcOf(s, t).Committing? || PcOf(s, t).Releasing?)
    ensures Enabled(s, ContinueAction(t))
    ensures Remaining(PcOf(Step(s, ContinueAction(t)), t)) == Remaining(PcOf(s, t)) - 1
    ensures var next := PcOf(Step(s, ContinueAction(t)), t); next.Idle? || next.Committing? || next.Releasing?
  {
    ContinueEffect(s, t);
  }

  lemma ContinueOnce(actions: seq<Action>, t: TxnId)
    requires PcOf(Run(actions), t).Committing? || PcOf(Run(actions), t).Releasing?
    ensures var s, all := Run(actions), actions + [ContinueAction(t)];
      var pc := PcOf(Run(all), t);
      && Invariant(s) && Invariant(Run(all)) && Finish(s, t) == Finish(Run(all), t) && History(all) == History(actions)
      && Remaining(pc) == Remaining(PcOf(s, t)) - 1 && (pc.Idle? || pc.Committing? || pc.Releasing?)
  {
    EveryRunKeepsInvariant(actions);
    OneContinue(Run(actions), t);
    FinishUnfolds(Run(actions), t);
    RunExtend(actions, ContinueAction(t));
    HistoryExtend(actions, ContinueAction(t));
  }

  lemma NoStepsLeft(actions: seq<Action>, t: TxnId)
    requires Invariant(Run(actions)) && PcOf(Run(actions), t).Idle?
    ensures actions + Continues(t, 0) == actions && Finish(Run(actions), t) == Run(actions)
  {
  }

  /** As many steps as are left bring a commit, rollback or denial to its end, unobserved. */
  lemma {:induction false} ContinuesFinish(actions: seq<Action>, t: TxnId, n: nat)
    requires Invariant(Run(actions)) && n == Remaining(PcOf(Run(actions), t))
    requires var pc := PcOf(Run(actions), t); pc.Idle? || pc.Committing? || pc.Releasing?
    ensures Run(actions + Continues(t, n)) == Finish(Run(actions), t)
    ensures History(actions + Continues(t, n)) == History(actions)
    decreases n
  {
    if PcOf(Run(actions), t).Idle? {
      NoStepsLeft(actions, t);
    } else {
      ContinueOnce(actions, t);
      ContinuesFinish(actions + [ContinueAction(t)], t, n - 1);
      FirstContinue(actions, t, n);
    }
  }

  lemma FirstContinue(actions: seq<Action>, t: TxnId, n: nat)
    requires n > 0
    ensures actions + Continues(t, n) == actions + [ContinueAction(t)] + Continues(t, n - 1)
  {
  }

  /** From the first step of a commit, rollback or denial on. */
  lemma RunsToItsEnd(actions: seq<Action>, t: TxnId)
    requires PcOf(Run(actions), t).Committing? || PcOf(Run(actions), t).Releasing?
    ensures var s, all := Run(actions), actions + Continues(t, Remaining(PcOf(Run(actions), t)));
      var pc := PcOf(s, t); var r := Run(all);
      && PcOf(r, t).Idle? && r.owner == s.owner - AsSet(pc.latches) && History(all) == History(actions)
      && r.transferred == s.transferred + (if pc.Committing? then AsSet(pc.latches) else {})
  {
    EveryRunKeepsInvariant(actions);
    ContinuesFinish(actions, t, Remaining(PcOf(Run(actions), t)));
    FinishedTransaction(Run(actions), t);
  }

  /** begin_transaction on free latches, tested. */
  function BeginAndTest(t: TxnId, ls: seq<LatchId>): seq<Action> {
    [BeginAction(t, ls), TestAction(t)]
  }

  lemma Untouched(owner: map<LatchId, TxnId>, owner': map<LatchId, TxnId>, ls: seq<LatchId>)
    requires forall l :: l in ls ==> l !in owner
    requires forall l :: l !in ls ==> (l in owner' <==> l in owner) && (l in owner ==> owner'[l] == owner[l])
    ensures owner' - AsSet(ls) == owner
  {
  }

  lemma Begun(actions: seq<Action>, t: TxnId, ls: seq<LatchId>)
    requires PcOf(Run(actions), t).Idle? && Available(Run(actions), ls)
    ensures var s, b := Run(actions), actions + [BeginAction(t, ls)];
      && PcOf(Run(b), t) == Checking(ls) && History(b) == History(actions)
      && Run(b).transferred == s.transferred && Run(b).owner - AsSet(ls) == s.owner
  {
    BeginLocksIffFree(actions, t, ls);
    Untouched(Run(actions).owner, Run(actions + [BeginAction(t, ls)]).owner, ls);
    HistoryExtend(actions, BeginAction(t, ls));
  }

  lemma Tested(actions: seq<Action>, t: TxnId)
    requires PcOf(Run(actions), t).Checking?
    ensures var s := Run(actions); var ls := PcOf(s, t).latches;
      History(actions + [TestAction(t)])
      == History(actions) + [Began(t, ls, forall l :: l in ls ==> l !in s.transferred)]
  {
    HistoryExtend(actions, TestAction(t));
  }

  lemma BegunAndTested(actions: seq<Action>, t: TxnId, ls: seq<LatchId>)
    requires PcOf(Run(actions), t).Idle? && Available(Run(actions), ls)
    ensures var s, all := Run(actions), actions + BeginAndTest(t, ls); var s' := Run(all);
      var ok := forall l :: l in ls ==> l !in s.transferred;
      && s'.transferred == s.transferred && s'.owner - AsSet(ls) == s.owner
      && PcOf(s', t) == (if ok then Open(ls) else Releasing(ls, false))
      && History(all) == History(actions) + [Began(t, ls, ok)]
  {
    var b := actions + [BeginAction(t, ls)];
    assert actions + BeginAndTest(t, ls) == b + [TestAction(t)];
    Begun(actions, t, ls);
    TestOpensIff(b, t);
    Tested(b, t);
  }

  /** A transaction on any free and open latches can be carried through to its commit:
      all of them end marked and unlocked, and one commit is observed. */
  lemma CommitCompletes(actions: seq<Action>, t: TxnId, ls: seq<LatchId>)
    requires PcOf(Run(actions), t).Idle? && Available(Run(actions), ls)
    requires forall l :: l in ls ==> l !in Run(actions).transferred
    ensures var s := Run(actions);
      var all := actions + BeginAndTest(t, ls) + [CommitAction(t)] + Continues(t, 2 * |ls| - 1);
      && PcOf(Run(all), t).Idle? && Run(all).owner == s.owner
      && Run(all).transferred == s.transferred + AsSet(ls)
      && History(all) == History(actions) + [Began(t, ls, true), Committed(t, ls)]
  {
    var open := actions + BeginAndTest(t, ls);
    BegunAndTested(actions, t, ls);
    OpenCommits(open, t);
    HistoryExtend(open, CommitAction(t));
    RunsToItsEnd(open + [CommitAction(t)], t);
    FirstAndRest(Run(actions).transferred, Run(open).owner, ls);
  }

  /** One that may not commit unlocks its latches and is done, without a trace. */
  lemma DenialCompletes(actions: seq<Action>, t: TxnId, ls: seq<LatchId>)
    requires PcOf(Run(actions), t).Idle? && Available(Run(actions), ls)
    requires exists l :: l in ls && l in Run(actions).transferred
    ensures var s := Run(actions);
      var all := actions + BeginAndTest(t, ls) + Continues(t, |ls|);
      && PcOf(Run(all), t).Idle? && Run(all).owner == s.owner && Run(all).transferred == s.transferred
      && History(all) == History(actions) + [Began(t, ls, false)]
  {
    var denied := actions + BeginAndTest(t, ls);
    BegunAndTested(actions, t, ls);
    RunsToItsEnd(denied, t);
  }

  /** One that is rolled back does the same after it was allowed to commit. */
  lemma RollbackCompletes(actions: seq<Action>, t: TxnId, ls: seq<LatchId>)
    requires PcOf(Run(actions), t).Idle? && Available(Run(actions), ls)
    requires forall l :: l in ls ==> l !in Run(actions).transferred
    ensures var s := Run(actions);
      var all := actions + BeginAndTest(t, ls) + [RollbackAction(t)] + Continues(t, |ls|);
      && PcOf(Run(all), t).Idle? && Run(all).owner == s.owner && Run(all).transferred == s.transferred
      && History(all) == History(actions) + [Began(t, ls, true), RolledBack(t, ls)]
  {
    var open := actions + BeginAndTest(t, ls);
    BegunAndTested(actions, t, ls);
    OpenRollsBack(open, t);
    HistoryExtend(open, RollbackAction(t));
    RunsToItsEnd(open + [RollbackAction(t)], t);
  }

  /** A run that commits two latches. */
  lemma TwoLatchCommit()
    ensures
      var all := [BeginAction(0, [0, 1]), TestAction(0), CommitAction(0),
                  ContinueAction(0), ContinueAction(0), ContinueAction(0)];
      && Run(all).transferred == {0, 1} && Run(all).owner == map[] && PcOf(Run(all), 0).Idle?
      && History(all) == [Began(0, [0, 1], true), Committed(0, [0, 1])]
  {
    CommitCompletes([], 0, [0, 1]);
    assert AsSet([0, 1]) == {0, 1};
    assert [] + BeginAndTest(0, [0, 1]) + [CommitAction(0)] + Continues(0, 3)
        == [BeginAction(0, [0, 1]), TestAction(0), CommitAction(0),
            ContinueAction(0), ContinueAction(0), ContinueAction(0)];
  }
}
