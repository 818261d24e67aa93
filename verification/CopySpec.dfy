/** The copy loop: pull an item from the source, push it into the sink, count, repeat. */
module CopySpec {

  /** The number of values of the counter's type, a 64-bit std::size_t. */
  const MODULUS: nat := 0x1_0000_0000_0000_0000

  datatype ErrorCode = Success | OperationAborted | Failure(code: int)

  /** The cancellation type requested so far: none, terminal, or any other value. */
  datatype Cancellation = NotCancelled | Terminal | Other

  /** What the loop waits for, or what it completed with. */
  datatype Phase = Pulling | Pushing | Done(ec: ErrorCode, count: nat)

  datatype Ending = Running | AtSource | AtSink | CancelledAfterSink

  /** completed is the counter. History: yielded are the items the source produced,
      offered those passed to the sink, pulls counts the completions of the source,
      pushed the successful completions of the sink, ending tells how the loop ended. */
  datatype State<T> = State(completed: nat, phase: Phase, yielded: seq<T>, offered: seq<T>, pulls: nat, pushed: nat,
                            ending: Ending)

  datatype Event<T> =
    | SourceDone(ec: ErrorCode, item: T, cancelled: Cancellation)
    | SinkDone(ec: ErrorCode, cancelled: Cancellation)

  function Decrement(n: nat): nat {
    if n == 0 then MODULUS - 1 else n - 1
  }

  function Increment(n: nat): nat {
    if n + 1 == MODULUS then 0 else n + 1
  }

  function Start<T>(): State<T> {
    State(Decrement(0), Pulling, [], [], 0, 0, Running)
  }

  function AfterSource<T>(s: State<T>, ec: ErrorCode, item: T, cancelled: Cancellation): State<T> {
    var s' := s.(completed := Increment(s.completed), pulls := s.pulls + 1,
                 yielded := s.yielded + if ec == Success then [item] else []);
    var code := if ec == Success && cancelled == Terminal then OperationAborted else ec;
    if code == Success then s'.(phase := Pushing, offered := s.offered + [item])
    else s'.(phase := Done(code, s'.completed), ending := AtSource)
  }

  function AfterSink<T>(s: State<T>, ec: ErrorCode, cancelled: Cancellation): State<T> {
    var s' := s.(pushed := s.pushed + if ec == Success then 1 else 0);
    var code := if ec == Success && cancelled != NotCancelled then OperationAborted else ec;
    if code == Success then s'.(phase := Pulling)
    else s'.(phase := Done(code, s.completed), ending := if ec == Success then CancelledAfterSink else AtSink)
  }

  /** An event the loop does not wait for does not happen. */
  function Step<T>(s: State<T>, e: Event<T>): State<T> {
    match e
    case SourceDone(ec, item, cancelled) => if s.phase.Pulling? then AfterSource(s, ec, item, cancelled) else s
    case SinkDone(ec, cancelled) => if s.phase.Pushing? then AfterSink(s, ec, cancelled) else s
  }

  function Run<T>(events: seq<Event<T>>): State<T> {
    if events == [] then Start() else Step(Run(events[..|events| - 1]), events[|events| - 1])
  }

  ghost predicate Counted<T>(s: State<T>) {
    && s.completed == (s.pulls + MODULUS - 1) % MODULUS
    && s.offered <= s.yielded
    && match s.phase
       case Pulling => s.ending == Running && s.offered == s.yielded && s.pushed == s.pulls == |s.offered|
       case Pushing => s.ending == Running && s.offered == s.yielded && s.pushed + 1 == s.pulls == |s.offered|
       case Done(ec, count) =>
         && ec != Success && count == s.completed
         && match s.ending
            case Running => false
            case AtSource => s.pushed + 1 == s.pulls && s.pushed == |s.offered|
            case AtSink => s.pushed + 1 == s.pulls == |s.offered| && s.offered == s.yielded
            case CancelledAfterSink => s.pushed == s.pulls == |s.offered| && s.offered == s.yielded
  }

  lemma CountedStep<T>(s: State<T>, e: Event<T>)
    requires Counted(s)
    ensures Counted(Step(s, e))
  {
    ModuloStep(s.pulls);
  }

  lemma ModuloStep(n: nat)
    ensures Increment((n + MODULUS - 1) % MODULUS) == (n + MODULUS) % MODULUS
  {
    var q, r := (n + MODULUS - 1) / MODULUS, (n + MODULUS - 1) % MODULUS;
    assert n + MODULUS == q * MODULUS + r + 1;
    if r + 1 == MODULUS {
      assert n + MODULUS == (q + 1) * MODULUS;
    }
  }

  /** In every run the counter is one less than the completions of the source,
      modulo the width of its type, and the sink is offered a prefix of what the
      source yielded, in order. */
  lemma {:induction false} EveryRunIsCounted<T>(events: seq<Event<T>>)
    ensures Counted(Run(events))
  {
    if events != [] {
      EveryRunIsCounted(events[..|events| - 1]);
      CountedStep(Run(events[..|events| - 1]), events[|events| - 1]);
    }
  }

  /** When e completes the loop, the reported count is the number of items the sink
      took, except exactly when e is a successful completion of the sink, after
      which a cancellation was noticed: then it is one fewer. */
  lemma ReportedCount<T>(events: seq<Event<T>>, e: Event<T>)
    requires !Run(events).phase.Done? && Run(events + [e]).phase.Done?
    ensures
      var s := Run(events + [e]);
      && s.phase.count == (s.pulls + MODULUS - 1) % MODULUS
      && (s.phase.count == s.pushed % MODULUS <==> !(e.SinkDone? && e.ec == Success))
      && (e.SinkDone? && e.ec == Success ==>
            e.cancelled != NotCancelled && s.phase.count == (s.pushed + MODULUS - 1) % MODULUS)
  {
    EveryRunIsCounted(events);
    EveryRunIsCounted(events + [e]);
    assert (events + [e])[..|events|] == events;
    OffByOne(Run(events + [e]).pushed);
  }

  lemma OffByOne(n: nat)
    ensures (n + MODULUS) % MODULUS == n % MODULUS != (n + MODULUS - 1) % MODULUS
  {
    ModuloStep(n);
  }

  /** A run in which the count falls short: one item is sunk, none is reported. */
  lemma CancelledCountFallsShort()
    ensures
      var s := Run([SourceDone(Success, 'a', NotCancelled), SinkDone(Success, Terminal)]);
      s.pushed == 1 && s.phase == Done(OperationAborted, 0)
  {
    var e0, e1 := SourceDone(Success, 'a', NotCancelled), SinkDone(Success, Terminal);
    assert [e0, e1][..1] == [e0] && [e0][..0] == [];
    assert Run([e0]) == Step(Start(), e0);
  }

  // ----- How the loop goes on and ends

  lemma RunExtend<T>(events: seq<Event<T>>, e: Event<T>)
    ensures Run(events + [e]) == Step(Run(events), e)
  {
    assert (events + [e])[..|events|] == events;
  }

  /** A completion of the source ends the loop exactly if it carries an error or a
      terminal cancellation has been requested, and reports that error, else
      operation_aborted; otherwise the item is passed to the sink. */
  lemma SourceCompletion<T>(events: seq<Event<T>>, ec: ErrorCode, item: T, cancelled: Cancellation)
    requires Run(events).phase.Pulling?
    ensures
      var s, s' := Run(events), Run(events + [SourceDone(ec, item, cancelled)]);
      && (s'.phase.Done? <==> ec != Success || cancelled == Terminal)
      && (ec != Success ==> s'.phase.Done? && s'.phase.ec == ec)
      && (ec == Success && cancelled == Terminal ==> s'.phase.Done? && s'.phase.ec == OperationAborted)
      && (!s'.phase.Done? ==> s'.phase == Pushing && s'.offered == s.offered + [item])
      && (s'.phase.Done? ==> s'.offered == s.offered)
      && s'.yielded == s.yielded + (if ec == Success then [item] else []) && s'.pushed == s.pushed
  {
    RunExtend(events, SourceDone(ec, item, cancelled));
  }

  /** A completion of the sink ends the loop exactly if it carries an error or any
      cancellation has been requested; otherwise the source is asked for the next item. */
  lemma SinkCompletion<T>(events: seq<Event<T>>, ec: ErrorCode, cancelled: Cancellation)
    requires Run(events).phase.Pushing?
    ensures
      var s, s' := Run(events), Run(events + [SinkDone(ec, cancelled)]);
      && (s'.phase.Done? <==> ec != Success || cancelled != NotCancelled)
      && (ec != Success ==> s'.phase.Done? && s'.phase.ec == ec)
      && (ec == Success && cancelled != NotCancelled ==> s'.phase.Done? && s'.phase.ec == OperationAborted)
      && (!s'.phase.Done? ==> s'.phase == Pulling)
      && s'.yielded == s.yielded && s'.offered == s.offered
      && s'.pushed == s.pushed + if ec == Success then 1 else 0
  {
    RunExtend(events, SinkDone(ec, cancelled));
  }

  lemma {:induction false} PullsAtMost<T>(events: seq<Event<T>>)
    ensures Run(events).pulls <= |events|
  {
    if events != [] {
      PullsAtMost(events[..|events| - 1]);
    }
  }

  /** In runs short enough for a 64-bit counter the count reported is the plain number
      of items sunk, less one if the loop was ended by a cancellation after the sink. */
  lemma ShortRunsCountPlainly<T>(events: seq<Event<T>>)
    requires |events| <= 0xFFFF_FFFF_FFFF_FFFF && Run(events).phase.Done?
    ensures var s := Run(events); s.phase.count == s.pushed - if s.ending == CancelledAfterSink then 1 else 0
  {
    EveryRunIsCounted(events);
    PullsAtMost(events);
    Unwrapped(Run(events).pulls);
  }

  lemma Unwrapped(n: nat)
    requires 0 < n <= 0xFFFF_FFFF_FFFF_FFFF
    ensures (n + MODULUS - 1) % MODULUS == n - 1
  {
    assert (n - 1 + MODULUS) % MODULUS == (n - 1) % MODULUS;
  }
}
