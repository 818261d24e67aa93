/**
 Objects that share transfer latches: what any number of reads and channels do
 together is what the race and the world of the specifications do.
*/
module SharedLatches {
  import opened TransferLatch
  import opened ValueChannel
  import opened LatchedRead
  import Chans = ChannelSpec
  import Reads = ReadSpec

  // ----- Reads

  /** ops are different reads of different sockets that race for one latch. */
  ghost predicate ShowsRace(latch: Latch, ops: seq<AtomicReadOp>, s: Reads.Race)
    reads latch, ops, set op | op in ops :: op.sock
  {
    && !latch.locked && latch.transferred == s.committed
    && |ops| == |s.readers| == |s.arrived|
    && (forall i :: 0 <= i < |ops| ==> ops[i].latch == latch && ops[i].Model() == s.readers[i])
    && (forall i, j :: 0 <= i < j < |ops| ==> ops[i] != ops[j] && ops[i].sock != ops[j].sock)
  }

  method WakeRead(
    latch: Latch, ops: seq<AtomicReadOp>, i: nat, waitEc: Reads.ErrorCode, answer: Reads.Answer, ghost s: Reads.Race)
    requires ShowsRace(latch, ops, s) && i < |ops| && ops[i].status.Waiting?
    modifies ops[i], ops[i].sock, latch
    ensures ShowsRace(latch, ops, Reads.Step(s, Reads.Wake(i, waitEc, answer)))
  {
    ops[i].Resume(waitEc, answer);
  }

  /** Somebody else begins on the latch and commits if the latch is open. */
  method CommitElsewhere(latch: Latch)
    requires !latch.locked
    modifies latch
    ensures !latch.locked && latch.transferred
  {
    var t := Begin1(latch);
    if t.MayCommit() {
      t.Commit();
    }
    t.Destroy();
  }

  method CommitInRace(latch: Latch, ops: seq<AtomicReadOp>, ghost s: Reads.Race)
    requires ShowsRace(latch, ops, s)
    modifies latch
    ensures ShowsRace(latch, ops, Reads.Step(s, Reads.OtherCommit))
  {
    CommitElsewhere(latch);
  }

  // ----- Channels

  /** What several channels share: the latches and the parked deliveries, numbered. */
  datatype Objects<!V> = Objects(latches: seq<Latch>, waiters: seq<Waiter<V>>, chans: seq<Channel<V>>)

  /** The values delivered to waiter k. */
  function Received<V>(deliveries: seq<Chans.Delivery<V>>, k: nat): seq<V> {
    if deliveries == [] then []
    else
      var d := deliveries[|deliveries| - 1];
      Received(deliveries[..|deliveries| - 1], k) + if d.waiter.id == k then [d.value] else []
  }

  ghost predicate Numbered<V>(o: Objects<V>) {
    Chans.Distinct(o.latches) && Chans.Distinct(o.waiters) && Chans.Distinct(o.chans)
  }

  ghost predicate IsWaiter<V>(o: Objects<V>, op: Waiter<V>, x: Chans.Waiter) {
    && x.id < |o.waiters| && x.latch < |o.latches|
    && op == o.waiters[x.id] && op.latch == o.latches[x.latch]
  }

  /** The channels m over objects and x over numbers are the same. */
  ghost predicate Same<V>(o: Objects<V>, m: Chans.Chan<Waiter<V>, V>, x: Chans.Chan<Chans.Waiter, V>) {
    && m.queue == x.queue && m.capacity == x.capacity && m.closed == x.closed
    && Chans.Distinct(m.ops) && |m.ops| == |x.ops|
    && forall i :: 0 <= i < |x.ops| ==> IsWaiter(o, m.ops[i], x.ops[i])
  }

  ghost predicate ShowsWorld<V>(o: Objects<V>, w: Chans.World<V>)
    reads o.latches, o.waiters, o.chans
  {
    && Numbered(o) && |o.chans| == |w.chans|
    && (forall l :: 0 <= l < |o.latches| ==>
          !o.latches[l].locked && (o.latches[l].transferred <==> l in w.committed))
    && (forall k :: 0 <= k < |o.waiters| ==> o.waiters[k].inbox == Received(w.deliveries, k))
    && (forall c :: 0 <= c < |o.chans| ==> Same(o, o.chans[c].Model(), w.chans[c]))
  }

  lemma OpenAgrees<V>(o: Objects<V>, w: Chans.World<V>, c: nat)
    requires ShowsWorld(o, w) && c < |o.chans|
    ensures o.chans[c].Valid() && o.chans[c].Open() == Chans.Open(w, c)
  {
    var ch := o.chans[c];
    assert Same(o, ch.Model(), w.chans[c]);
    forall i | 0 <= i < |ch.deliverOps|
      ensures ch.deliverOps[i].latch in o.latches
      ensures ch.deliverOps[i].latch.transferred <==> w.chans[c].ops[i].latch in w.committed
    {
      assert IsWaiter(o, ch.deliverOps[i], w.chans[c].ops[i]);
    }
  }

  lemma ReceivedNext<V>(ds: seq<Chans.Delivery<V>>, d: Chans.Delivery<V>, k: nat)
    ensures Received(ds + [d], k) == Received(ds, k) + if d.waiter.id == k then [d.value] else []
  {
    assert (ds + [d])[..|ds|] == ds;
  }

  lemma SendsAlike<V>(
    o: Objects<V>, m: Chans.Chan<Waiter<V>, V>, x: Chans.Chan<Chans.Waiter, V>, open: seq<bool>, v: V)
    requires Same(o, m, x) && |open| == |m.ops|
    ensures Chans.Decide(m, open) == Chans.Decide(x, open)
    ensures Same(o, Chans.TrySend(m, open, v), Chans.TrySend(x, open, v))
  {
    var i := Chans.FirstOpen(open);
    if i < |open| {
      Chans.DropIsDistinct(m.ops, i);
    }
  }

  /** If the channels, the waiters and the latches are as a send in world w leaves
      them, they show the world after it; ops is what was parked before. */
  lemma WorldFollows<V>(o: Objects<V>, c: nat, v: V, w: Chans.World<V>, ops: seq<Waiter<V>>)
    requires Numbered(o) && c < |o.chans| == |w.chans| && |ops| == |w.chans[c].ops|
    requires forall i :: 0 <= i < |ops| ==> IsWaiter(o, ops[i], w.chans[c].ops[i])
    requires var out := Chans.OutcomeOf(w, Chans.Send(c, v));
      && (forall l :: 0 <= l < |o.latches| ==>
            && !o.latches[l].locked
            && (o.latches[l].transferred <==>
                  l in w.committed || (out.Delivered? && o.latches[l] == ops[out.position].latch)))
      && (forall k :: 0 <= k < |o.waiters| ==>
            o.waiters[k].inbox == Received(w.deliveries, k)
                                  + if out.Delivered? && o.waiters[k] == ops[out.position] then [v] else [])
    requires forall d :: 0 <= d < |o.chans| ==> Same(o, o.chans[d].Model(), Chans.Step(w, Chans.Send(c, v)).chans[d])
    ensures ShowsWorld(o, Chans.Step(w, Chans.Send(c, v)))
  {
    var out, w' := Chans.OutcomeOf(w, Chans.Send(c, v)), Chans.Step(w, Chans.Send(c, v));
    if out.Delivered? {
      var x := w.chans[c].ops[out.position];
      assert IsWaiter(o, ops[out.position], x);
      forall k | 0 <= k < |o.waiters| ensures o.waiters[k].inbox == Received(w'.deliveries, k) {
        ReceivedNext(w.deliveries, Chans.Delivery(c, x, v), k);
      }
      forall l | 0 <= l < |o.latches| ensures o.latches[l].transferred <==> l in w'.committed {
        assert l == x.latch <==> o.latches[l] == o.latches[x.latch];
      }
    }
  }

  /** A send on any of the channels is the step of the world. */
  method Send<V>(o: Objects<V>, c: nat, v: V, ghost w: Chans.World<V>) returns (sent: bool)
    requires ShowsWorld(o, w) && c < |o.chans|
    modifies o.chans[c], o.chans[c].Latches(), o.chans[c].deliverOps
    ensures sent <==> !Chans.OutcomeOf(w, Chans.Send(c, v)).Refused?
    ensures ShowsWorld(o, Chans.Step(w, Chans.Send(c, v)))
  {
    OpenAgrees(o, w, c);
    ghost var ops, w' := o.chans[c].deliverOps, Chans.Step(w, Chans.Send(c, v));
    SendsAlike(o, o.chans[c].Model(), w.chans[c], Chans.Open(w, c), v);
    ghost var out, latches := Chans.OutcomeOf(w, Chans.Send(c, v)), o.chans[c].Latches();
    assert out == Chans.Decide(o.chans[c].Model(), o.chans[c].Open());
    var left;
    sent, left := o.chans[c].TrySend(v);
    forall d | 0 <= d < |o.chans| ensures Same(o, o.chans[d].Model(), w'.chans[d]) {
      if d != c {
        assert old(Same(o, o.chans[d].Model(), w.chans[d])) && o.chans[d] != o.chans[c];
        assert unchanged(o.chans[d]);
      }
    }
    assert out.Delivered? ==> ops[out.position] in ops;
    forall l | 0 <= l < |o.latches|
      ensures !o.latches[l].locked
      ensures o.latches[l].transferred <==>
                l in w.committed || (out.Delivered? && o.latches[l] == ops[out.position].latch)
    {
      assert o.latches[l] !in latches ==> unchanged(o.latches[l]);
    }
    forall k | 0 <= k < |o.waiters|
      ensures o.waiters[k].inbox == old(o.waiters[k].inbox)
                                    + if out.Delivered? && o.waiters[k] == ops[out.position] then [v] else []
    {
      assert o.waiters[k] !in ops ==> unchanged(o.waiters[k]);
    }
    WorldFollows(o, c, v, w, ops);
  }

  method CommitInWorld<V>(o: Objects<V>, l: nat, ghost w: Chans.World<V>)
    requires ShowsWorld(o, w) && l < |o.latches|
    modifies o.latches[l]
    ensures ShowsWorld(o, Chans.Step(w, Chans.CommitElsewhere(l)))
  {
    CommitElsewhere(o.latches[l]);
    forall c | 0 <= c < |o.chans| ensures Same(o, o.chans[c].Model(), w.chans[c]) {
      assert old(Same(o, o.chans[c].Model(), w.chans[c]));
    }
  }
}
