/**
 What transactions over transfer latches look like from outside: the
 specification that the interleaved system is proved to refine.  A commit of any
 number of latches is one event.
*/
module AtomicTransactions {
  type LatchId = nat
  type TxnId = nat

  /** A transaction names one or two latches; nothing here depends on how many,
      only that they are distinct. */
  ghost predicate Names(ls: seq<LatchId>) {
    ls != [] && forall i, j :: 0 <= i < j < |ls| ==> ls[i] != ls[j]
  }

  datatype Observation =
    | Began(txn: TxnId, latches: seq<LatchId>, ok: bool)
    | Committed(txn: TxnId, latches: seq<LatchId>)
    | RolledBack(txn: TxnId, latches: seq<LatchId>)
    | Reset(latch: LatchId)

  /** committed: the latches committed since their last reset.
      open: the transactions that have begun with may_commit and not ended. */
  datatype State = State(committed: set<LatchId>, open: map<TxnId, seq<LatchId>>)

  ghost predicate Free(s: State, l: LatchId) {
    forall t :: t in s.open ==> l !in s.open[t]
  }

  ghost predicate Allowed(s: State, o: Observation) {
    match o
    case Began(t, ls, ok) =>
      && t !in s.open && Names(ls)
      && (forall l :: l in ls ==> Free(s, l))
      && (ok <==> forall l :: l in ls ==> l !in s.committed)
    case Committed(t, ls) =>
      t in s.open && s.open[t] == ls && forall l :: l in ls ==> l !in s.committed
    case RolledBack(t, ls) => t in s.open && s.open[t] == ls
    case Reset(l) => Free(s, l)
  }

  function After(s: State, o: Observation): State {
    match o
    case Began(t, ls, ok) => if ok then s.(open := s.open[t := ls]) else s
    case Committed(t, ls) => State(s.committed + (set l | l in ls), s.open - {t})
    case RolledBack(t, ls) => s.(open := s.open - {t})
    case Reset(l) => s.(committed := s.committed - {l})
  }

  /** The state after a history that the specification allows from the start. */
  function Final(history: seq<Observation>): State {
    if history == [] then State({}, map[])
    else After(Final(history[..|history| - 1]), history[|history| - 1])
  }

  ghost predicate Atomic(history: seq<Observation>) {
    history == [] || (Atomic(history[..|history| - 1])
                      && Allowed(Final(history[..|history| - 1]), history[|history| - 1]))
  }

  lemma AtomicExtend(history: seq<Observation>, o: Observation)
    requires Atomic(history) && Allowed(Final(history), o)
    ensures Atomic(history + [o]) && Final(history + [o]) == After(Final(history), o)
  {
    assert (history + [o])[..|history|] == history;
  }

  ghost predicate Commits(o: Observation, l: LatchId) {
    o.Committed? && l in o.latches
  }

  /** In an atomic history a latch stays committed until it is reset. */
  lemma {:induction false} StaysCommitted(history: seq<Observation>, i: nat, l: LatchId)
    requires i < |history| && Commits(history[i], l)
    requires forall k :: i < k < |history| ==> history[k] != Reset(l)
    ensures l in Final(history).committed
  {
    if i < |history| - 1 {
      StaysCommitted(history[..|history| - 1], i, l);
    }
  }

  /** Each latch is committed at most once between resets. */
  lemma CommittedOnceBetweenResets(history: seq<Observation>, i: nat, j: nat, l: LatchId)
    requires Atomic(history) && i < j < |history| && Commits(history[i], l) && Commits(history[j], l)
    ensures exists k :: i < k < j && history[k] == Reset(l)
  {
    AtomicPrefix(history, j + 1);
    var h := history[..j + 1];
    assert h[..j] == history[..j];
    if forall k :: i < k < j ==> history[k] != Reset(l) {
      StaysCommitted(history[..j], i, l);
    }
  }

  lemma {:induction false} AtomicPrefix(history: seq<Observation>, n: nat)
    requires Atomic(history) && n <= |history|
    ensures Atomic(history[..n])
  {
    if n < |history| {
      AtomicPrefix(history[..|history| - 1], n);
      assert history[..|history| - 1][..n] == history[..n];
    } else {
      assert history[..n] == history;
    }
  }

  /** No half commit is ever observed: once a transaction has committed, anyone who
      begins a transaction on any of its latches before that latch is reset is denied. */
  lemma NoHalfCommit(history: seq<Observation>, i: nat, j: nat, l: LatchId)
    requires Atomic(history) && i < j < |history| && Commits(history[i], l)
    requires history[j].Began? && l in history[j].latches
    requires forall k :: i < k < j ==> history[k] != Reset(l)
    ensures !history[j].ok
  {
    AtomicPrefix(history, j + 1);
    assert history[..j + 1][..j] == history[..j];
    StaysCommitted(history[..j], i, l);
  }
}
