/**
 Threads that run transactions: when one that has locks may have to wait.  A thread
 may have several transactions under way, and may begin one while another of its
 transactions holds locks.
*/
module TransactionThreads {
  import opened AtomicTransactions
  import opened Transactions

  /** A thread: its transactions and, while it is inside begin_transaction, the
      latches that this call is to lock. */
  datatype Thread = Thread(txns: set<TxnId>, begins: seq<LatchId>)

  ghost predicate Holding(s: System, h: Thread) {
    exists t :: t in h.txns && !PcOf(s, t).Idle?
  }

  /** An action of the thread on a transaction of its own that has its locks. */
  ghost predicate Moves(s: System, h: Thread, a: Action) {
    !a.ResetAction? && !a.BeginAction? && a.txn in h.txns && Enabled(s, a)
  }

  /** Inside begin_transaction a thread can do nothing but take the locks, once all are free. */
  ghost predicate CanStep(s: System, h: Thread) {
    if h.begins != [] then forall l :: l in h.begins ==> l !in s.owner
    else exists a :: Moves(s, h, a)
  }

  /** A thread that has locks can always take a step, except exactly while it is
      inside a further begin_transaction on a latch that is locked. */
  lemma BlockedWithLocksIff(actions: seq<Action>, h: Thread)
    requires Holding(Run(actions), h)
    ensures !CanStep(Run(actions), h) <==> exists l :: l in h.begins && l in Run(actions).owner
  {
    var s := Run(actions);
    if h.begins == [] {
      var t :| t in h.txns && !PcOf(s, t).Idle?;
      OnceLockedNeverBlocked(actions, t, TestAction(t));
      assert Moves(s, h, TestAction(t)) || Moves(s, h, CommitAction(t)) || Moves(s, h, ContinueAction(t));
    }
  }

  /** Each transaction under way is run by one of the threads. */
  ghost predicate RunBy(s: System, threads: seq<Thread>) {
    forall t :: !PcOf(s, t).Idle? ==> exists k :: 0 <= k < |threads| && t in threads[k].txns
  }

  /** No deadlock among threads that begin transactions only while they hold no
      locks: as long as one of them holds locks or is inside begin_transaction, one
      of them can take a step. */
  lemma NoDeadlock(actions: seq<Action>, threads: seq<Thread>, k: nat)
    requires RunBy(Run(actions), threads) && k < |threads|
    requires forall j :: 0 <= j < |threads| && threads[j].begins != [] ==> !Holding(Run(actions), threads[j])
    requires Holding(Run(actions), threads[k]) || threads[k].begins != []
    ensures exists j :: 0 <= j < |threads| && CanStep(Run(actions), threads[j])
  {
    var s := Run(actions);
    EveryRunKeepsInvariant(actions);
    if Holding(s, threads[k]) {
      BlockedWithLocksIff(actions, threads[k]);
    } else if !CanStep(s, threads[k]) {
      var l :| l in threads[k].begins && l in s.owner;
      var t := s.owner[l];
      assert l in Holds(PcOf(s, t));
      var j :| 0 <= j < |threads| && t in threads[j].txns;
      assert Holding(s, threads[j]);
      BlockedWithLocksIff(actions, threads[j]);
    }
  }

  const TWO_BEGUN: seq<Action> := [BeginAction(0, [0]), BeginAction(1, [1])]

  lemma TwoBegunRun()
    ensures Run(TWO_BEGUN) == System({}, map[0 := 0, 1 := 1], map[0 := Checking([0]), 1 := Checking([1])])
  {
    var a, b := BeginAction(0, [0]), BeginAction(1, [1]);
    RunExtend([], a);
    assert [] + [a] == [a] && [a] + [b] == TWO_BEGUN;
    assert Run([a]) == System({}, map[0 := 0], map[0 := Checking([0])]);
    RunExtend([a], b);
  }

  /** A run after which two transactions are open, each on its own latch. */
  const TWO_OPEN: seq<Action> := TWO_BEGUN + [TestAction(0)] + [TestAction(1)]

  lemma TwoOpenRun()
    ensures Run(TWO_OPEN) == System({}, map[0 := 0, 1 := 1], map[0 := Open([0]), 1 := Open([1])])
  {
    TwoBegunRun();
    RunExtend(TWO_BEGUN, TestAction(0));
    RunExtend(TWO_BEGUN + [TestAction(0)], TestAction(1));
  }

  /** Without that restriction two threads can block each other for good: each has
      a transaction open on one latch and is inside begin_transaction on the other. */
  lemma HoldAndWaitDeadlocks()
    ensures
      var s, one, two := Run(TWO_OPEN), Thread({0}, [1]), Thread({1}, [0]);
      && Holding(s, one) && Holding(s, two) && RunBy(s, [one, two])
      && !CanStep(s, one) && !CanStep(s, two)
  {
    TwoOpenRun();
    var hs := [Thread({0}, [1]), Thread({1}, [0])];
    assert 0 in hs[0].txns && 1 in hs[1].txns;
    assert 1 in hs[0].begins && 0 in hs[1].begins;
  }
}
