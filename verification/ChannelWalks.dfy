/**
 Sends as they are executed: a try_send locks and tests one latch after the other,
 and whatever others do to the latches happens between its offers.
*/
module ChannelWalks {
  import Spec = ChannelSpec

  /** A try_send under way: its value, and the position of the next waiter to offer it to. */
  datatype Walk<V> = Walk(value: V, current: nat)

  /** walks holds the try_send under way on each channel, of which there is at most
      one: a channel has no lock of its own. */
  datatype State<V> = State(world: Spec.World<V>, walks: map<nat, Walk<V>>)

  /** Continue is one offer, or the end of a walk that has found no open latch. */
  datatype Action<V> = Begin(chan: nat, value: V) | Continue(chan: nat) | CommitElsewhere(latch: Spec.LatchId)

  ghost predicate Enabled<V>(s: State<V>, a: Action<V>) {
    match a
    case Begin(c, _) => c < |s.world.chans| && c !in s.walks
    case Continue(c) => c < |s.world.chans| && c in s.walks
    case CommitElsewhere(_) => true
  }

  /** The offer of a walk commits the waiter's latch. */
  ghost predicate Delivers<V>(s: State<V>, c: nat)
    requires c < |s.world.chans| && c in s.walks
  {
    var ops, i := s.world.chans[c].ops, s.walks[c].current;
    i < |ops| && ops[i].latch !in s.world.committed
  }

  /** The value goes to the queue, or back to the caller. */
  function EndOfWalk<V>(w: Spec.World<V>, c: nat, v: V): Spec.World<V>
    requires c < |w.chans|
  {
    var ch := w.chans[c];
    if |ch.queue| >= ch.capacity then w else w.(chans := w.chans[c := ch.(queue := ch.queue + [v])])
  }

  function Deliver<V>(w: Spec.World<V>, c: nat, i: nat, v: V): Spec.World<V>
    requires c < |w.chans| && i < |w.chans[c].ops|
  {
    var ch := w.chans[c];
    w.(committed := w.committed + {ch.ops[i].latch},
       chans := w.chans[c := ch.(ops := ch.ops[..i] + ch.ops[i + 1..])],
       deliveries := w.deliveries + [Spec.Delivery(c, ch.ops[i], v)])
  }

  ghost function Step<V>(s: State<V>, a: Action<V>): State<V>
    requires Enabled(s, a)
  {
    match a
    case Begin(c, v) => s.(walks := s.walks[c := Walk(v, 0)])
    case CommitElsewhere(l) => s.(world := Spec.Step(s.world, Spec.CommitElsewhere(l)))
    case Continue(c) =>
      var i, v := s.walks[c].current, s.walks[c].value;
      if i >= |s.world.chans[c].ops| then State(EndOfWalk(s.world, c, v), s.walks - {c})
      else if Delivers(s, c) then State(Deliver(s.world, c, i, v), s.walks - {c})
      else s.(walks := s.walks[c := Walk(v, i + 1)])
  }

  /** What an action is for the world: a walk is a send at its last step, and nothing before. */
  ghost function Events<V>(s: State<V>, a: Action<V>): seq<Spec.Event<V>>
    requires Enabled(s, a)
  {
    match a
    case Begin(_, _) => []
    case CommitElsewhere(l) => [Spec.CommitElsewhere(l)]
    case Continue(c) =>
      if s.walks[c].current >= |s.world.chans[c].ops| || Delivers(s, c) then [Spec.Send(c, s.walks[c].value)] else []
  }

  /** The latches that a walk has passed are committed, and stay so. */
  ghost predicate PassedCommitted<V>(s: State<V>, c: nat) {
    c in s.walks ==>
      && c < |s.world.chans| && s.walks[c].current <= |s.world.chans[c].ops|
      && forall j :: 0 <= j < s.walks[c].current ==> s.world.chans[c].ops[j].latch in s.world.committed
  }

  ghost predicate Invariant<V>(s: State<V>) {
    forall c :: PassedCommitted(s, c)
  }

  /** The last offer of a walk finds what a send at that moment would find. */
  lemma LastOfferDecides<V>(s: State<V>, c: nat)
    requires PassedCommitted(s, c) && c in s.walks
    requires s.walks[c].current < |s.world.chans[c].ops| ==> Delivers(s, c)
    ensures Spec.FirstOpen(Spec.Open(s.world, c)) == s.walks[c].current
  {
    Spec.FirstOpenIs(Spec.Open(s.world, c), s.walks[c].current);
  }

  lemma StepIsEvents<V>(s: State<V>, a: Action<V>)
    requires Invariant(s) && Enabled(s, a)
    ensures Step(s, a).world == if Events(s, a) == [] then s.world else Spec.Step(s.world, Events(s, a)[0])
  {
    if a.Continue? && Events(s, a) != [] {
      assert PassedCommitted(s, a.chan);
      LastOfferDecides(s, a.chan);
    }
  }

  lemma InvariantStep<V>(s: State<V>, a: Action<V>)
    requires Invariant(s) && Enabled(s, a)
    ensures Invariant(Step(s, a))
  {
    forall c ensures PassedCommitted(Step(s, a), c) {
      assert PassedCommitted(s, c);
    }
  }

  // ----- Whole runs

  /** An action that is not enabled changes nothing. */
  ghost function Run<V>(w: Spec.World<V>, actions: seq<Action<V>>): State<V> {
    if actions == [] then State(w, map[])
    else
      var s, a := Run(w, actions[..|actions| - 1]), actions[|actions| - 1];
      if Enabled(s, a) then Step(s, a) else s
  }

  ghost function RunEvents<V>(w: Spec.World<V>, actions: seq<Action<V>>): seq<Spec.Event<V>> {
    if actions == [] then []
    else
      var before, a := actions[..|actions| - 1], actions[|actions| - 1];
      RunEvents(w, before) + if Enabled(Run(w, before), a) then Events(Run(w, before), a) else []
  }

  lemma {:induction false} EveryRunKeepsInvariant<V>(w: Spec.World<V>, actions: seq<Action<V>>)
    ensures Invariant(Run(w, actions))
  {
    if actions != [] {
      var before, a := actions[..|actions| - 1], actions[|actions| - 1];
      EveryRunKeepsInvariant(w, before);
      if Enabled(Run(w, before), a) {
        InvariantStep(Run(w, before), a);
      }
    }
  }

  lemma SpecRunOn<V>(w: Spec.World<V>, events: seq<Spec.Event<V>>, more: seq<Spec.Event<V>>)
    requires |more| <= 1
    ensures Spec.Run(w, events + more)
         == if more == [] then Spec.Run(w, events) else Spec.Step(Spec.Run(w, events), more[0])
  {
    if more == [] {
      assert events + more == events;
    } else {
      assert (events + more)[..|events|] == events;
    }
  }

  /** However the offers of walks on different channels and the commits of others
      interleave, the world goes through the sends, each at the last step of its walk. */
  lemma {:induction false} WalksAreSends<V>(w: Spec.World<V>, actions: seq<Action<V>>)
    ensures Run(w, actions).world == Spec.Run(w, RunEvents(w, actions))
  {
    if actions != [] {
      var before, a := actions[..|actions| - 1], actions[|actions| - 1];
      WalksAreSends(w, before);
      EveryRunKeepsInvariant(w, before);
      var s := Run(w, before);
      if Enabled(s, a) {
        StepIsEvents(s, a);
        SpecRunOn(w, RunEvents(w, before), Events(s, a));
      } else {
        assert RunEvents(w, actions) == RunEvents(w, before);
      }
    }
  }

  function CalledBy<V>(a: Action<V>, c: nat): seq<V> {
    if a.Begin? && a.chan == c then [a.value] else []
  }

  /** The values for which try_send has been called on channel c. */
  ghost function Called<V>(w: Spec.World<V>, actions: seq<Action<V>>, c: nat): seq<V> {
    if actions == [] then []
    else
      var before, a := actions[..|actions| - 1], actions[|actions| - 1];
      Called(w, before, c) + if Enabled(Run(w, before), a) then CalledBy(a, c) else []
  }

  function SentOn<V>(events: seq<Spec.Event<V>>, c: nat): seq<V> {
    if events == [] then []
    else
      var e := events[|events| - 1];
      SentOn(events[..|events| - 1], c) + if e.Send? && e.chan == c then [e.value] else []
  }

  lemma SentMore<V>(events: seq<Spec.Event<V>>, more: seq<Spec.Event<V>>, c: nat)
    requires |more| <= 1
    ensures SentOn(events + more, c) == SentOn(events, c) + SentOn(more, c)
  {
    if more == [] {
      assert events + more == events;
    } else {
      assert (events + more)[..|events|] == events && more[..0] == [];
    }
  }

  function UnderWay<V>(s: State<V>, c: nat): seq<V> {
    if c in s.walks then [s.walks[c].value] else []
  }

  lemma CallStep<V>(s: State<V>, a: Action<V>, c: nat)
    requires Enabled(s, a)
    ensures UnderWay(s, c) + CalledBy(a, c) == SentOn(Events(s, a), c) + UnderWay(Step(s, a), c)
  {
    if Events(s, a) != [] {
      assert Events(s, a)[..0] == [];
    }
  }

  /** Each call of try_send is one send, in the order of the calls on its channel,
      except that the last may be under way. */
  lemma {:induction false} EachCallIsOneSend<V>(w: Spec.World<V>, actions: seq<Action<V>>, c: nat)
    ensures Called(w, actions, c) == SentOn(RunEvents(w, actions), c) + UnderWay(Run(w, actions), c)
  {
    if actions != [] {
      var before, a := actions[..|actions| - 1], actions[|actions| - 1];
      var s := Run(w, before);
      EachCallIsOneSend(w, before, c);
      if Enabled(s, a) {
        SentMore(RunEvents(w, before), Events(s, a), c);
        CallStep(s, a, c);
        var sent := SentOn(RunEvents(w, before), c);
        assert (sent + UnderWay(s, c)) + CalledBy(a, c) == sent + (UnderWay(s, c) + CalledBy(a, c));
      } else {
        assert RunEvents(w, actions) == RunEvents(w, before);
      }
    }
  }

  /** So each latch's group of waiters receives one value at most even then. */
  lemma {:induction false} EachLatchReceivesAtMostOnce<V>(w: Spec.World<V>, actions: seq<Action<V>>)
    requires w.deliveries == [] && w.others == {}
    ensures Spec.OneEach(w, Run(w, actions).world)
  {
    WalksAreSends(w, actions);
    Spec.EachLatchReceivesAtMostOnce(w, RunEvents(w, actions));
  }

  // ----- Walks begin and end

  lemma RunExtend<V>(w: Spec.World<V>, actions: seq<Action<V>>, a: Action<V>)
    requires Enabled(Run(w, actions), a)
    ensures Run(w, actions + [a]) == Step(Run(w, actions), a)
  {
    assert (actions + [a])[..|actions|] == actions;
  }

  /** try_send can be called on any channel that no other call is using. */
  lemma WalkBegins<V>(w: Spec.World<V>, actions: seq<Action<V>>, c: nat, v: V)
    requires c < |Run(w, actions).world.chans| && c !in Run(w, actions).walks
    ensures var s, s' := Run(w, actions), Run(w, actions + [Begin(c, v)]);
      s'.world == s.world && c in s'.walks && s'.walks[c].value == v
  {
    RunExtend(w, actions, Begin(c, v));
  }

  function Continues<V>(c: nat, n: nat): (r: seq<Action<V>>)
    ensures |r| == n
  {
    seq(n, _ => Continue(c))
  }

  /** A call returns after at most one offer for each waiter and one step more. */
  lemma {:induction false} WalkEnds<V>(w: Spec.World<V>, actions: seq<Action<V>>, c: nat) returns (n: nat)
    requires c in Run(w, actions).walks
    ensures c < |Run(w, actions).world.chans|
    ensures n <= |Run(w, actions).world.chans[c].ops| - Run(w, actions).walks[c].current + 1
    ensures c !in Run(w, actions + Continues(c, n)).walks
    decreases var s := Run(w, actions);
      if c < |s.world.chans| then |s.world.chans[c].ops| - s.walks[c].current else 0
  {
    var s := Run(w, actions);
    EveryRunKeepsInvariant(w, actions);
    assert PassedCommitted(s, c);
    RunExtend(w, actions, Continue(c));
    var next := actions + [Continue(c)];
    if c in Run(w, next).walks {
      n := WalkEnds(w, next, c);
      n := n + 1;
      assert actions + Continues(c, n) == next + Continues(c, n - 1);
    } else {
      n := 1;
      assert actions + Continues(c, 1) == next;
    }
  }
}
