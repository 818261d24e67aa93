/**
 Channels whose deliveries are arbitrated by transfer latches: what one try_send
 does, and what any sequence of them does to any number of channels whose
 waiters share latches.
*/
module ChannelSpec {
  import opened Sequences

  /** ops are the parked deliveries in list order; W is whatever identifies one. */
  datatype Chan<W, V> = Chan(ops: seq<W>, queue: seq<V>, capacity: nat, closed: bool)

  datatype Outcome = Delivered(position: nat) | Queued | Refused

  /** The position of the first open latch, or the length of the list. */
  function FirstOpen(open: seq<bool>): (i: nat)
    ensures i <= |open| && (i < |open| ==> open[i]) && forall j :: 0 <= j < i ==> !open[j]
  {
    if open == [] || open[0] then 0 else FirstOpen(open[1..]) + 1
  }

  lemma {:induction false} FirstOpenIs(open: seq<bool>, i: nat)
    requires i <= |open| && (i < |open| ==> open[i]) && forall j :: 0 <= j < i ==> !open[j]
    ensures FirstOpen(open) == i
  {
    if i > 0 {
      FirstOpenIs(open[1..], i - 1);
    }
  }

  /** open tells for each parked delivery whether its latch may be committed. */
  function Decide<W, V>(c: Chan<W, V>, open: seq<bool>): Outcome
  {
    var i := FirstOpen(open);
    if i < |open| then Delivered(i)
    else if |c.queue| >= c.capacity then Refused
    else Queued
  }

  function TrySend<W, V>(c: Chan<W, V>, open: seq<bool>, v: V): Chan<W, V>
    requires |open| == |c.ops|
  {
    match Decide(c, open)
    case Delivered(i) => c.(ops := c.ops[..i] + c.ops[i + 1..])
    case Queued => c.(queue := c.queue + [v])
    case Refused => c
  }

  // ----- Many channels, shared latches

  type LatchId = nat

  datatype Waiter = Waiter(id: nat, latch: LatchId)
  datatype Delivery<V> = Delivery(chan: nat, waiter: Waiter, value: V)

  /** A try_send on a channel, or a commit of a latch by anyone else. */
  datatype Event<V> = Send(chan: nat, value: V) | CommitElsewhere(latch: LatchId)

  /** History: the deliveries made, and the latches that others committed. */
  datatype World<V> = World(committed: set<LatchId>, chans: seq<Chan<Waiter, V>>, deliveries: seq<Delivery<V>>,
                            others: set<LatchId>)

  function Open<V>(w: World<V>, c: nat): (r: seq<bool>)
    requires c < |w.chans|
    ensures |r| == |w.chans[c].ops|
  {
    seq(|w.chans[c].ops|, i requires 0 <= i < |w.chans[c].ops| => w.chans[c].ops[i].latch !in w.committed)
  }

  function OutcomeOf<V>(w: World<V>, s: Event<V>): Outcome {
    if s.Send? && s.chan < |w.chans| then Decide(w.chans[s.chan], Open(w, s.chan)) else Refused
  }

  function Step<V>(w: World<V>, s: Event<V>): World<V> {
    if s.CommitElsewhere? then
      if s.latch in w.committed then w
      else w.(committed := w.committed + {s.latch}, others := w.others + {s.latch})
    else if s.chan >= |w.chans| then w
    else
      var c, open := w.chans[s.chan], Open(w, s.chan);
      var w' := w.(chans := w.chans[s.chan := TrySend(c, open, s.value)]);
      match OutcomeOf(w, s)
      case Delivered(i) =>
        w'.(committed := w.committed + {c.ops[i].latch},
            deliveries := w.deliveries + [Delivery(s.chan, c.ops[i], s.value)])
      case Queued => w'
      case Refused => w'
  }

  function Run<V>(w: World<V>, sends: seq<Event<V>>): World<V> {
    if sends == [] then w else Step(Run(w, sends[..|sends| - 1]), sends[|sends| - 1])
  }

  /** Each latch's group of waiters receives at most one value, and only if the
      latch was open to begin with and nobody else commits it; exactly the latches
      served and those committed by others become committed. */
  ghost predicate OneEach<V>(w0: World<V>, w: World<V>) {
    && (forall i, j :: 0 <= i < j < |w.deliveries| ==> w.deliveries[i].waiter.latch != w.deliveries[j].waiter.latch)
    && (forall i :: 0 <= i < |w.deliveries| ==> w.deliveries[i].waiter.latch !in w0.committed + w.others)
    && w.committed == w0.committed + w.others + (set d | d in w.deliveries :: d.waiter.latch)
  }

  lemma OneEachStep<V>(w0: World<V>, w: World<V>, s: Event<V>)
    requires OneEach(w0, w)
    ensures OneEach(w0, Step(w, s))
  {
    if OutcomeOf(w, s).Delivered? {
      var d := Delivery(s.chan, w.chans[s.chan].ops[OutcomeOf(w, s).position], s.value);
      assert Step(w, s).deliveries == w.deliveries + [d] && Open(w, s.chan)[OutcomeOf(w, s).position];
      ServeOne(w0.committed + w.others, w.committed, w.deliveries, d);
    } else if s.CommitElsewhere? && s.latch !in w.committed {
      forall i | 0 <= i < |w.deliveries| ensures w.deliveries[i].waiter.latch != s.latch {
        assert w.deliveries[i] in w.deliveries;
      }
    }
  }

  lemma ServeOne<V>(c0: set<LatchId>, c: set<LatchId>, ds: seq<Delivery<V>>, d: Delivery<V>)
    requires c == c0 + (set x | x in ds :: x.waiter.latch) && d.waiter.latch !in c
    ensures c + {d.waiter.latch} == c0 + (set x | x in ds + [d] :: x.waiter.latch)
    ensures d.waiter.latch !in c0 && forall i :: 0 <= i < |ds| ==> ds[i].waiter.latch != d.waiter.latch
  {
    assert forall x :: x in ds + [d] <==> x in ds || x == d;
    forall i | 0 <= i < |ds| ensures ds[i].waiter.latch != d.waiter.latch {
      assert ds[i] in ds;
    }
  }

  lemma {:induction false} EachLatchReceivesAtMostOnce<V>(w0: World<V>, sends: seq<Event<V>>)
    requires w0.deliveries == [] && w0.others == {}
    ensures OneEach(w0, Run(w0, sends))
  {
    if sends != [] {
      EachLatchReceivesAtMostOnce(w0, sends[..|sends| - 1]);
      OneEachStep(w0, Run(w0, sends[..|sends| - 1]), sends[|sends| - 1]);
    }
  }

  // ----- No value lost or doubled

  /** The values of the sends on channel c that were accepted. */
  function Accepted<V>(w0: World<V>, sends: seq<Event<V>>, c: nat): seq<V> {
    if sends == [] then []
    else
      var before, s := sends[..|sends| - 1], sends[|sends| - 1];
      Accepted(w0, before, c)
      + if !OutcomeOf(Run(w0, before), s).Refused? && s.chan == c then [s.value] else []
  }

  /** The values delivered from channel c. */
  function DeliveredOn<V>(deliveries: seq<Delivery<V>>, c: nat): seq<V> {
    if deliveries == [] then []
    else
      var d := deliveries[|deliveries| - 1];
      DeliveredOn(deliveries[..|deliveries| - 1], c) + if d.chan == c then [d.value] else []
  }

  /** A send leaves one more value delivered or queued, or is refused. */
  lemma ValueStep<V>(w: World<V>, s: Event<V>, c: nat)
    requires c < |w.chans|
    ensures
      var w' := Step(w, s);
      && |w'.chans| == |w.chans| && w'.chans[c].capacity == w.chans[c].capacity
      && multiset(DeliveredOn(w'.deliveries, c)) + multiset(w'.chans[c].queue)
         == multiset(DeliveredOn(w.deliveries, c)) + multiset(w.chans[c].queue)
            + (if !OutcomeOf(w, s).Refused? && s.chan == c then multiset{s.value} else multiset{})
      && (|w'.chans[c].queue| <= w.chans[c].capacity || w'.chans[c].queue == w.chans[c].queue)
  {
    QueueStep(w, s, c);
    DeliveredStep(w, s, c);
    Counts(DeliveredOn(w.deliveries, c), AddedIf(OutcomeOf(w, s).Delivered?, s, c),
           w.chans[c].queue, AddedIf(OutcomeOf(w, s).Queued?, s, c));
  }

  lemma QueueStep<V>(w: World<V>, s: Event<V>, c: nat)
    requires c < |w.chans|
    ensures
      var w', o := Step(w, s), OutcomeOf(w, s);
      && |w'.chans| == |w.chans| && w'.chans[c].capacity == w.chans[c].capacity
      && w'.chans[c].queue == w.chans[c].queue + AddedIf(o.Queued?, s, c)
      && (o.Queued? && s.chan == c ==> |w.chans[c].queue| < w.chans[c].capacity)
  {
  }

  lemma DeliveredStep<V>(w: World<V>, s: Event<V>, c: nat)
    ensures DeliveredOn(Step(w, s).deliveries, c)
         == DeliveredOn(w.deliveries, c) + AddedIf(OutcomeOf(w, s).Delivered?, s, c)
  {
    if OutcomeOf(w, s).Delivered? {
      DeliveredNext(w.deliveries, Step(w, s).deliveries[|w.deliveries|], c);
    }
  }

  function AddedIf<V>(accepted: bool, s: Event<V>, c: nat): seq<V>
  {
    if accepted && s.Send? && s.chan == c then [s.value] else []
  }

  lemma Counts<V>(a: seq<V>, x: seq<V>, b: seq<V>, y: seq<V>)
    ensures multiset(a + x) + multiset(b + y) == multiset(a) + multiset(b) + multiset(x) + multiset(y)
  {
  }

  lemma DeliveredNext<V>(ds: seq<Delivery<V>>, d: Delivery<V>, c: nat)
    ensures DeliveredOn(ds + [d], c) == DeliveredOn(ds, c) + if d.chan == c then [d.value] else []
  {
    assert (ds + [d])[..|ds|] == ds;
  }

  /** Every value for which try_send returned true is delivered once or queued, in
      its channel; nothing else is; and the queue never grows beyond its capacity. */
  lemma {:induction false} ValuesAreConserved<V>(w0: World<V>, sends: seq<Event<V>>, c: nat)
    requires w0.deliveries == [] && c < |w0.chans|
    ensures
      var w := Run(w0, sends);
      && |w.chans| == |w0.chans| && w.chans[c].capacity == w0.chans[c].capacity
      && multiset(DeliveredOn(w.deliveries, c)) + multiset(w.chans[c].queue)
         == multiset(Accepted(w0, sends, c)) + multiset(w0.chans[c].queue)
      && (|w.chans[c].queue| <= w.chans[c].capacity || w.chans[c].queue == w0.chans[c].queue)
  {
    if sends != [] {
      ValuesAreConserved(w0, sends[..|sends| - 1], c);
      ValueStep(Run(w0, sends[..|sends| - 1]), sends[|sends| - 1], c);
    }
  }

  // ----- The other waiters

  ghost predicate Distinct<W>(ops: seq<W>) {
    forall i, j :: 0 <= i < j < |ops| ==> ops[i] != ops[j]
  }

  /** ops without the waiters that have been served, in the original order. */
  function Unserved(ops: seq<Waiter>, served: set<Waiter>): seq<Waiter> {
    if ops == [] then []
    else if ops[|ops| - 1] in served then Unserved(ops[..|ops| - 1], served)
    else Unserved(ops[..|ops| - 1], served) + [ops[|ops| - 1]]
  }

  ghost function Served<V>(w: World<V>, c: nat): set<Waiter> {
    set d | d in w.deliveries && d.chan == c :: d.waiter
  }

  lemma {:induction false} UnservedMore(ops: seq<Waiter>, served: set<Waiter>, x: Waiter)
    ensures Unserved(ops, served + {x}) == Without(Unserved(ops, served), x)
  {
    if ops != [] {
      var last := ops[|ops| - 1];
      UnservedMore(ops[..|ops| - 1], served, x);
      if last !in served {
        WithoutSnoc(Unserved(ops[..|ops| - 1], served), last, x);
      }
    }
  }

  lemma DropIsWithout<W>(ops: seq<W>, i: nat)
    requires Distinct(ops) && i < |ops|
    ensures ops[..i] + ops[i + 1..] == Without(ops, ops[i])
  {
    assert ops == ops[..i] + [ops[i]] + ops[i + 1..];
    WithoutMiddle(ops[..i], ops[i], ops[i + 1..]);
  }

  lemma DropIsDistinct<W>(ops: seq<W>, i: nat)
    requires Distinct(ops) && i < |ops|
    ensures Distinct(ops[..i] + ops[i + 1..])
  {
    var r := ops[..i] + ops[i + 1..];
    assert forall j :: 0 <= j < |r| ==> r[j] == ops[if j < i then j else j + 1];
  }

  lemma {:induction false} UnservedNone(ops: seq<Waiter>)
    ensures Unserved(ops, {}) == ops
  {
    if ops != [] {
      UnservedNone(ops[..|ops| - 1]);
      assert ops == ops[..|ops| - 1] + [ops[|ops| - 1]];
    }
  }

  lemma ServedStep<V>(w: World<V>, s: Event<V>, c: nat)
    ensures Served(Step(w, s), c) == Served(w, c) +
      if OutcomeOf(w, s).Delivered? && s.chan == c
      then {w.chans[c].ops[OutcomeOf(w, s).position]} else {}
  {
    var w' := Step(w, s);
    if OutcomeOf(w, s).Delivered? {
      var d := w'.deliveries[|w.deliveries|];
      assert forall x :: x in w'.deliveries <==> x in w.deliveries || x == d;
    }
  }

  ghost predicate KeptOrder<V>(w0: World<V>, w: World<V>, c: nat) {
    && c < |w0.chans| == |w.chans| && Distinct(w.chans[c].ops)
    && w.chans[c].ops == Unserved(w0.chans[c].ops, Served(w, c))
  }

  lemma KeptOrderStep<V>(w0: World<V>, w: World<V>, s: Event<V>, c: nat)
    requires KeptOrder(w0, w, c)
    ensures KeptOrder(w0, Step(w, s), c)
  {
    ServedStep(w, s, c);
    if OutcomeOf(w, s).Delivered? && s.chan == c {
      var ops, i := w.chans[c].ops, OutcomeOf(w, s).position;
      DropIsWithout(ops, i);
      DropIsDistinct(ops, i);
      UnservedMore(w0.chans[c].ops, Served(w, c), ops[i]);
    } else {
      assert Served(Step(w, s), c) == Served(w, c);
    }
  }

  /** The waiters left on a channel are those not served, in their original order. */
  lemma {:induction false} OtherWaitersKeepTheirOrder<V>(w0: World<V>, sends: seq<Event<V>>, c: nat)
    requires w0.deliveries == [] && c < |w0.chans| && Distinct(w0.chans[c].ops)
    ensures KeptOrder(w0, Run(w0, sends), c)
  {
    if sends == [] {
      UnservedNone(w0.chans[c].ops);
      assert Served(w0, c) == {};
    } else {
      OtherWaitersKeepTheirOrder(w0, sends[..|sends| - 1], c);
      KeptOrderStep(w0, Run(w0, sends[..|sends| - 1]), sends[|sends| - 1], c);
    }
  }

  // ----- No overtaking

  /** A channel keeps values only while none of its waiters can take one. */
  ghost predicate NobodyWaitsBesideAValue<V>(w: World<V>) {
    forall c, i :: 0 <= c < |w.chans| && 0 <= i < |w.chans[c].ops| && w.chans[c].queue != []
      ==> w.chans[c].ops[i].latch in w.committed
  }

  lemma NobodyWaitsStep<V>(w: World<V>, s: Event<V>)
    requires NobodyWaitsBesideAValue(w)
    ensures NobodyWaitsBesideAValue(Step(w, s))
  {
    if s.Send? && s.chan < |w.chans| {
      var w', open := Step(w, s), Open(w, s.chan);
      if OutcomeOf(w, s).Queued? {
        forall i | 0 <= i < |open| ensures w.chans[s.chan].ops[i].latch in w.committed {
          assert !open[i];
        }
      }
    }
  }

  /** From channels with empty queues, no send ever delivers a value to a waiter
      while an earlier value of that channel is still queued. */
  lemma {:induction false} NoOvertaking<V>(w0: World<V>, sends: seq<Event<V>>, s: Event<V>)
    requires forall c :: 0 <= c < |w0.chans| ==> w0.chans[c].queue == []
    ensures NobodyWaitsBesideAValue(Run(w0, sends))
    ensures
      var w := Run(w0, sends);
      OutcomeOf(w, s).Delivered? ==> w.chans[s.chan].queue == []
  {
    if sends != [] {
      NoOvertaking(w0, sends[..|sends| - 1], s);
      NobodyWaitsStep(Run(w0, sends[..|sends| - 1]), sends[|sends| - 1]);
    }
    var w := Run(w0, sends);
    if OutcomeOf(w, s).Delivered? {
      assert Open(w, s.chan)[OutcomeOf(w, s).position];
    }
  }

  // ----- Closing

  function Close<W, V>(c: Chan<W, V>): Chan<W, V> {
    c.(closed := true)
  }

  /** A closed channel refuses a value exactly when it would have refused it open:
      no parked delivery has an open latch and the queue is full. */
  lemma ClosedRefusesOnlyWhenFull<W, V>(c: Chan<W, V>, open: seq<bool>)
    ensures Decide(Close(c), open) == Refused
       <==> |c.queue| >= c.capacity && forall i :: 0 <= i < |open| ==> !open[i]
  {
    var i := FirstOpen(open);
    if i < |open| {
      assert open[i];
    }
  }

  /** So closing does not stop sends: this closed channel accepts a value. */
  lemma ClosedChannelAccepts()
    ensures
      var c: Chan<Waiter, int> := Close(Chan([], [], 1, false));
      TrySend(c, [], 7).queue == [7]
  {
    assert FirstOpen([]) == 0;
  }

  // ----- What a send comes to

  lemma RunExtend<V>(w: World<V>, sends: seq<Event<V>>, e: Event<V>)
    ensures Run(w, sends + [e]) == Step(Run(w, sends), e)
  {
    assert (sends + [e])[..|sends|] == sends;
  }

  lemma FirstOpenIsLeast(open: seq<bool>)
    ensures FirstOpen(open) == |open| <==> forall j :: 0 <= j < |open| ==> !open[j]
  {
  }

  /** At any point of any run, a send on a channel with an open waiter is received by
      the first such waiter, whose latch is then committed; the queue and the other
      channels stay as they were. */
  lemma FirstOpenWaiterIsServed<V>(w0: World<V>, sends: seq<Event<V>>, c: nat, v: V, i: nat)
    requires c < |Run(w0, sends).chans| && i < |Run(w0, sends).chans[c].ops|
    requires var w := Run(w0, sends);
      && w.chans[c].ops[i].latch !in w.committed
      && forall j :: 0 <= j < i ==> w.chans[c].ops[j].latch in w.committed
    ensures
      var w, w' := Run(w0, sends), Run(w0, sends + [Send(c, v)]); var ops := w.chans[c].ops;
      && w'.deliveries == w.deliveries + [Delivery(c, ops[i], v)]
      && w'.committed == w.committed + {ops[i].latch} && w'.others == w.others
      && w'.chans == w.chans[c := w.chans[c].(ops := ops[..i] + ops[i + 1..])]
  {
    RunExtend(w0, sends, Send(c, v));
    FirstOpenIs(Open(Run(w0, sends), c), i);
  }

  /** If no waiter of the channel is open the value is queued, or refused exactly when
      the queue is full; nothing else changes. */
  lemma OtherwiseQueuedOrRefused<V>(w0: World<V>, sends: seq<Event<V>>, c: nat, v: V)
    requires c < |Run(w0, sends).chans|
    requires var w := Run(w0, sends);
      forall j :: 0 <= j < |w.chans[c].ops| ==> w.chans[c].ops[j].latch in w.committed
    ensures
      var w, w' := Run(w0, sends), Run(w0, sends + [Send(c, v)]); var ch := w.chans[c];
      if |ch.queue| < ch.capacity then w' == w.(chans := w.chans[c := ch.(queue := ch.queue + [v])]) else w' == w
  {
    RunExtend(w0, sends, Send(c, v));
    FirstOpenIs(Open(Run(w0, sends), c), |Open(Run(w0, sends), c)|);
  }

  /** For every channel, closed or not: a send is refused exactly if no waiter is open and the queue is full. */
  lemma RefusedIff<V>(w: World<V>, c: nat, v: V)
    requires c < |w.chans|
    ensures OutcomeOf(w, Send(c, v)).Refused? <==>
              && |w.chans[c].queue| >= w.chans[c].capacity
              && forall j :: 0 <= j < |w.chans[c].ops| ==> w.chans[c].ops[j].latch in w.committed
  {
    FirstOpenIsLeast(Open(w, c));
    assert forall j :: 0 <= j < |w.chans[c].ops| ==> (Open(w, c)[j] <==> w.chans[c].ops[j].latch !in w.committed);
  }
}
