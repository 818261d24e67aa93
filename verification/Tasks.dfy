/**
 The executor: a queue of posted handlers.  Posting never runs a handler; a
 handler runs only when the executor takes it from the queue.
*/
module Tasks {
  import opened Sequences

  datatype ErrorCode = Success | OperationAborted

  /** Identifies one initiated asynchronous operation, hence its handler. */
  type OpId = nat

  /** Resume: the handler a semaphore posts, with the error code appended to it.
      Finish: the final completion that a composed operation posts for itself. */
  datatype Task = Resume(op: OpId, ec: ErrorCode) | Finish(op: OpId)

  /** A completion handler that has run. */
  datatype Completion = Completion(op: OpId, ec: ErrorCode)

  function Ops(tasks: seq<Task>): (r: seq<OpId>)
    ensures |r| == |tasks|
  {
    seq(|tasks|, i requires 0 <= i < |tasks| => tasks[i].op)
  }

  /** The operations resumed with error code ec, in the order of their tasks. */
  function Resumed(tasks: seq<Task>, ec: ErrorCode): seq<OpId>
  {
    if tasks == [] then []
    else
      var t := tasks[|tasks| - 1];
      Resumed(tasks[..|tasks| - 1], ec) + (if t.Resume? && t.ec == ec then [t.op] else [])
  }

  /** The operations whose own final completion is queued. */
  function Finishing(tasks: seq<Task>): seq<OpId>
  {
    if tasks == [] then []
    else
      var t := tasks[|tasks| - 1];
      Finishing(tasks[..|tasks| - 1]) + (if t.Finish? then [t.op] else [])
  }

  /** The operations completed with error code ec, in order. */
  function Completed(done: seq<Completion>, ec: ErrorCode): seq<OpId>
  {
    if done == [] then []
    else
      var c := done[|done| - 1];
      Completed(done[..|done| - 1], ec) + (if c.ec == ec then [c.op] else [])
  }

  function CompletedOps(done: seq<Completion>): (r: seq<OpId>)
    ensures |r| == |done|
  {
    seq(|done|, i requires 0 <= i < |done| => done[i].op)
  }

  /** One resume for each of ops, in order. */
  function Wake(ops: seq<OpId>, ec: ErrorCode): (r: seq<Task>)
    ensures |r| == |ops|
  {
    seq(|ops|, i requires 0 <= i < |ops| => Resume(ops[i], ec))
  }

  lemma OpsAppend(a: seq<Task>, b: seq<Task>)
    ensures Ops(a + b) == Ops(a) + Ops(b)
  {
  }

  lemma {:induction false} ResumedAmongOps(tasks: seq<Task>, ec: ErrorCode, op: OpId)
    requires op in Resumed(tasks, ec)
    ensures op in Ops(tasks)
  {
    var init := tasks[..|tasks| - 1];
    assert Ops(tasks) == Ops(init) + [tasks[|tasks| - 1].op];
    if op in Resumed(init, ec) {
      ResumedAmongOps(init, ec, op);
    }
  }

  lemma OneResume(op: OpId, ec: ErrorCode, other: ErrorCode)
    ensures Ops([Resume(op, ec)]) == [op] && Finishing([Resume(op, ec)]) == []
    ensures Resumed([Resume(op, ec)], other) == if ec == other then [op] else []
  {
    assert [Resume(op, ec)][..0] == [];
  }

  lemma {:induction false} ResumedAppend(a: seq<Task>, b: seq<Task>, ec: ErrorCode)
    ensures Resumed(a + b, ec) == Resumed(a, ec) + Resumed(b, ec)
  {
    if b == [] {
      assert a + b == a;
    } else {
      assert (a + b)[..|a + b| - 1] == a + b[..|b| - 1];
      ResumedAppend(a, b[..|b| - 1], ec);
    }
  }

  lemma {:induction false} FinishingAppend(a: seq<Task>, b: seq<Task>)
    ensures Finishing(a + b) == Finishing(a) + Finishing(b)
  {
    if b == [] {
      assert a + b == a;
    } else {
      assert (a + b)[..|a + b| - 1] == a + b[..|b| - 1];
      FinishingAppend(a, b[..|b| - 1]);
    }
  }

  /** What taking the task at position i removes from each view of the queue. */
  lemma TakeTask(tasks: seq<Task>, i: nat)
    requires i < |tasks|
    ensures forall x :: Times(Ops(tasks), x) == Times(Ops(DropAt(tasks, i)), x) + if x == tasks[i].op then 1 else 0
    ensures forall x :: Times(Finishing(tasks), x)
                     == Times(Finishing(DropAt(tasks, i)), x) + if tasks[i] == Finish(x) then 1 else 0
    ensures |Finishing(tasks)| == |Finishing(DropAt(tasks, i))| + if tasks[i].Finish? then 1 else 0
    ensures |Resumed(tasks, Success)|
         == |Resumed(DropAt(tasks, i), Success)| + if tasks[i].Resume? && tasks[i].ec == Success then 1 else 0
  {
    TimesDropAt(Ops(tasks), i);
    assert DropAt(Ops(tasks), i) == Ops(DropAt(tasks, i));
    TakeFinish(tasks, i);
    TakeResume(tasks, i);
  }

  lemma TakeFinish(tasks: seq<Task>, i: nat)
    requires i < |tasks|
    ensures forall x :: Times(Finishing(tasks), x)
                     == Times(Finishing(DropAt(tasks, i)), x) + if tasks[i] == Finish(x) then 1 else 0
    ensures |Finishing(tasks)| == |Finishing(DropAt(tasks, i))| + if tasks[i].Finish? then 1 else 0
  {
    var a, t, b := tasks[..i], [tasks[i]], tasks[i + 1..];
    assert tasks == (a + t) + b;
    FinishingAppend(a + t, b);
    FinishingAppend(a, t);
    FinishingAppend(a, b);
    TimesAppend(Finishing(a) + Finishing(t), Finishing(b));
    TimesAppend(Finishing(a), Finishing(t));
    TimesAppend(Finishing(a), Finishing(b));
  }

  lemma TakeResume(tasks: seq<Task>, i: nat)
    requires i < |tasks|
    ensures |Resumed(tasks, Success)|
         == |Resumed(DropAt(tasks, i), Success)| + if tasks[i].Resume? && tasks[i].ec == Success then 1 else 0
  {
    var a, t, b := tasks[..i], [tasks[i]], tasks[i + 1..];
    assert tasks == (a + t) + b;
    ResumedAppend(a + t, b, Success);
    ResumedAppend(a, t, Success);
    ResumedAppend(a, b, Success);
  }

  lemma ResumedOne(t: Task)
    ensures Resumed([t], Success) == if t == Resume(t.op, Success) then [t.op] else []
  {
    assert [t][..0] == [];
  }

  lemma ResumedParts(tasks: seq<Task>, a: seq<Task>, t: Task, b: seq<Task>)
    requires tasks == a + [t] + b
    ensures Resumed(a + b, Success) == Resumed(a, Success) + Resumed(b, Success)
    ensures Resumed(tasks, Success)
         == Resumed(a, Success) + (if t == Resume(t.op, Success) then [t.op] else []) + Resumed(b, Success)
  {
    ResumedAppend(a + [t], b, Success);
    ResumedAppend(a, [t], Success);
    ResumedOne(t);
    ResumedAppend(a, b, Success);
  }

  lemma ResumedAround(tasks: seq<Task>, i: nat)
    requires i < |tasks|
    ensures Resumed(DropAt(tasks, i), Success) == Resumed(tasks[..i], Success) + Resumed(tasks[i + 1..], Success)
    ensures Resumed(tasks, Success) == Resumed(tasks[..i], Success)
                                       + (if tasks[i] == Resume(tasks[i].op, Success) then [tasks[i].op] else [])
                                       + Resumed(tasks[i + 1..], Success)
  {
    SplitAt(tasks, i);
    ResumedParts(tasks, tasks[..i], tasks[i], tasks[i + 1..]);
  }

  lemma AddCompletion(done: seq<Completion>, c: Completion)
    ensures forall x :: Times(CompletedOps(done + [c]), x) == Times(CompletedOps(done), x) + if x == c.op then 1 else 0
    ensures Completed(done + [c], Success) == Completed(done, Success) + if c.ec == Success then [c.op] else []
  {
    assert CompletedOps(done + [c]) == CompletedOps(done) + [c.op];
    TimesAppend(CompletedOps(done), [c.op]);
    TimesOne(c.op);
    assert (done + [c])[..|done|] == done;
  }

  lemma AddFinish(tasks: seq<Task>, op: OpId)
    ensures forall x :: Times(Ops(tasks + [Finish(op)]), x) == Times(Ops(tasks), x) + if x == op then 1 else 0
    ensures Finishing(tasks + [Finish(op)]) == Finishing(tasks) + [op]
    ensures Resumed(tasks + [Finish(op)], Success) == Resumed(tasks, Success)
  {
    OpsAppend(tasks, [Finish(op)]);
    assert Ops([Finish(op)]) == [op];
    TimesAppend(Ops(tasks), [op]);
    TimesOne(op);
    assert (tasks + [Finish(op)])[..|tasks|] == tasks;
  }

  lemma WakeResumes(ops: seq<OpId>, ec: ErrorCode, other: ErrorCode)
    ensures Ops(Wake(ops, ec)) == ops
    ensures Resumed(Wake(ops, ec), other) == if other == ec then ops else []
    ensures Finishing(Wake(ops, ec)) == []
  {
    OnlyResumes(Wake(ops, ec), ec, other);
    assert Ops(Wake(ops, ec)) == ops;
  }

  lemma {:induction false} OnlyResumes(tasks: seq<Task>, ec: ErrorCode, other: ErrorCode)
    requires forall t :: t in tasks ==> t == Resume(t.op, ec)
    ensures Resumed(tasks, other) == if other == ec then Ops(tasks) else []
    ensures Finishing(tasks) == []
  {
    if tasks != [] {
      var init, last := tasks[..|tasks| - 1], tasks[|tasks| - 1];
      assert tasks == init + [last];
      OnlyResumes(init, ec, other);
      assert Ops(tasks) == Ops(init) + [last.op];
    }
  }

  lemma WakeNext(ops: seq<OpId>, n: nat, ec: ErrorCode)
    requires n < |ops|
    ensures Wake(ops[..n + 1], ec) == Wake(ops[..n], ec) + [Resume(ops[n..][0], ec)]
    ensures ops[n..][1..] == ops[n + 1..]
  {
  }

  /** The queue behind asio::post, as far as it concerns one object: the tasks that
      others have posted to the same executor leave the object alone. */
  class Executor {
    var queue: seq<Task>

    constructor ()
      ensures queue == []
    {
      queue := [];
    }

    method Post(t: Task)
      modifies this
      ensures queue == old(queue) + [t]
    {
      queue := queue + [t];
    }

    /** Takes the task at position i: different handlers may be bound to
        different underlying executors, so any queued one may run next. */
    method Take(i: nat) returns (t: Task)
      requires i < |queue|
      modifies this
      ensures t == old(queue[i]) && queue == DropAt(old(queue), i)
    {
      t := queue[i];
      queue := queue[..i] + queue[i + 1..];
    }
  }
}
