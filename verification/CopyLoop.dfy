/** The copy loop as an object: its counter and the callbacks that re-enter it. */
module CopyLoop {
  import Spec = CopySpec

  class AsyncCopyOp<T> {
    var completed: nat
    /** What the operation has initiated last, or completed with. */
    var phase: Spec.Phase
    /** The items with which the sink has been initiated. */
    var offered: seq<T>

    ghost predicate Shows(s: Spec.State<T>)
      reads this
    {
      completed == s.completed < Spec.MODULUS && phase == s.phase && offered == s.offered
    }

    /** Constructs the operation and makes its first call. */
    constructor ()
      ensures Shows(Spec.Start())
    {
      completed := Spec.Decrement(0);
      phase, offered := Spec.Pulling, [];
    }

    method OnSource(ec: Spec.ErrorCode, item: T, cancelled: Spec.Cancellation, ghost s: Spec.State<T>)
      requires Shows(s) && phase.Pulling?
      modifies this
      ensures Shows(Spec.Step(s, Spec.SourceDone(ec, item, cancelled)))
      ensures phase == if ec != Spec.Success then Spec.Done(ec, completed)
                       else if cancelled == Spec.Terminal then Spec.Done(Spec.OperationAborted, completed)
                       else Spec.Pushing
      ensures offered == old(offered) + if phase.Pushing? then [item] else []
    {
      var code := ec;
      completed := if completed + 1 == Spec.MODULUS then 0 else completed + 1;
      if code == Spec.Success && cancelled == Spec.Terminal {
        code := Spec.OperationAborted;
      }
      if code == Spec.Success {
        offered := offered + [item];
        phase := Spec.Pushing;
      } else {
        phase := Spec.Done(code, completed);
      }
    }

    method OnSink(ec: Spec.ErrorCode, cancelled: Spec.Cancellation, ghost s: Spec.State<T>)
      requires Shows(s) && phase.Pushing?
      modifies this
      ensures Shows(Spec.Step(s, Spec.SinkDone(ec, cancelled)))
      ensures completed == old(completed) && offered == old(offered)
      ensures phase == if ec != Spec.Success then Spec.Done(ec, completed)
                       else if cancelled != Spec.NotCancelled then Spec.Done(Spec.OperationAborted, completed)
                       else Spec.Pulling
    {
      var code := ec;
      if code == Spec.Success && cancelled != Spec.NotCancelled {
        code := Spec.OperationAborted;
      }
      if code == Spec.Success {
        phase := Spec.Pulling;
      } else {
        phase := Spec.Done(code, completed);
      }
    }
  }
}
