/** The latch-arbitrated channel as an object. */
module ValueChannel {
  import opened TransferLatch
  import Spec = ChannelSpec

  datatype Option<T> = None | Some(value: T)

  /** A parked delivery; inbox holds what has been transferred to it. */
  class Waiter<V> {
    const latch: Latch
    var inbox: seq<V>

    constructor (latch: Latch)
      ensures this.latch == latch && inbox == []
    {
      this.latch := latch;
      inbox := [];
    }

    method Transfer(v: V)
      modifies this
      ensures inbox == old(inbox) + [v]
    {
      inbox := inbox + [v];
    }
  }

  /** Delivers val if the latch can be committed. What is left of val is None
      exactly if it was delivered. */
  method AtomicDeliver<V>(latch: Latch, val: V, target: Waiter<V>) returns (delivered: bool, left: Option<V>)
    requires !latch.locked
    modifies latch, target
    ensures !latch.locked && latch.transferred
    ensures delivered <==> !old(latch.transferred)
    ensures left == if delivered then None else Some(val)
    ensures target.inbox == old(target.inbox) + if delivered then [val] else []
  {
    var t := Begin1(latch);
    if t.MayCommit() {
      t.Commit();
      target.Transfer(val);
      return true, None;
    }
    t.Destroy();
    return false, Some(val);
  }

  class Channel<V> {
    const capacity: nat
    var queue: seq<V>
    var deliverOps: seq<Waiter<V>>
    /** Set by Close. */
    var closed: bool

    constructor (capacity: nat)
      ensures Model() == Spec.Chan([], [], capacity, false)
    {
      this.capacity := capacity;
      queue, deliverOps, closed := [], [], false;
    }

    ghost function Model(): Spec.Chan<Waiter<V>, V>
      reads this
    {
      Spec.Chan(deliverOps, queue, capacity, closed)
    }

    ghost function Latches(): set<Latch>
      reads this
    {
      set w | w in deliverOps :: w.latch
    }

    /** Which parked deliveries have a latch that may be committed. */
    ghost function Open(): (r: seq<bool>)
      reads this, Latches()
      ensures |r| == |deliverOps|
    {
      seq(|deliverOps|, i requires 0 <= i < |deliverOps| reads this, Latches() => deliverOps[i].latch.MayCommit())
    }

    /** Sends have no lock of their own: the latches' mutexes are free between calls. */
    ghost predicate Valid()
      reads this, Latches()
    {
      && Spec.Distinct(deliverOps)
      && forall l :: l in Latches() ==> !l.locked
    }

    method Close()
      modifies this`closed
      ensures Model() == Spec.Close(old(Model()))
    {
      closed := true;
    }

    /** One step of the walk: offers v to the parked delivery at the given position. */
    method Offer(current: nat, v: V) returns (taken: bool)
      requires Valid() && current < |deliverOps|
      modifies this, Latches(), deliverOps
      ensures Valid() && taken == old(Open())[current]
      ensures Model() == old(Model()).(
        ops := if taken then old(deliverOps)[..current] + old(deliverOps)[current + 1..] else old(deliverOps))
      ensures forall w :: w in old(deliverOps) ==>
        w.inbox == old(w.inbox) + if taken && w == old(deliverOps)[current] then [v] else []
      ensures forall l :: l in old(Latches()) ==>
        l.transferred == (old(l.transferred) || (taken && l == old(deliverOps)[current].latch))
      ensures forall l :: l in old(Latches()) ==> !l.locked
    {
      var waiter := deliverOps[current];
      assert waiter.latch in Latches();
      var t := Begin1(waiter.latch);
      if t.MayCommit() {
        t.Commit();
        Spec.DropIsDistinct(deliverOps, current);
        deliverOps := deliverOps[..current] + deliverOps[current + 1..];
        waiter.Transfer(v);
        return true;
      }
      t.Destroy();
      return false;
    }

    /** Walks the list until a parked delivery takes v. */
    method Walk(v: V) returns (taken: bool)
      requires Valid()
      modifies this, Latches(), deliverOps
      ensures Valid() && taken == Spec.Decide(old(Model()), old(Open())).Delivered?
      ensures Model() == if taken then Spec.TrySend(old(Model()), old(Open()), v) else old(Model())
      ensures forall w :: w in old(deliverOps) ==>
        w.inbox == old(w.inbox) + if taken && w == old(deliverOps)[Spec.FirstOpen(old(Open()))] then [v] else []
      ensures forall l :: l in old(Latches()) ==>
        l.transferred == (old(l.transferred) || (taken && l == old(deliverOps)[Spec.FirstOpen(old(Open()))].latch))
      ensures forall l :: l in old(Latches()) ==> !l.locked
    {
      ghost var open := Open();
      var current := 0;
      while current < |deliverOps|
        invariant 0 <= current <= |deliverOps|
        invariant Valid() && Model() == old(Model())
        invariant forall l :: l in Latches() ==> l.transferred == old(l.transferred)
        invariant forall w :: w in deliverOps ==> w.inbox == old(w.inbox)
        invariant forall j :: 0 <= j < current ==> !open[j]
      {
        taken := Offer(current, v);
        if taken {
          Spec.FirstOpenIs(open, current);
          return;
        }
        current := current + 1;
      }
      Spec.FirstOpenIs(open, current);
      taken := false;
    }

    /** Sends v to the first parked delivery whose latch can be committed, else
        to the queue if it has room. What is left of v is None if it was sent. */
    method TrySend(v: V) returns (sent: bool, left: Option<V>)
      requires Valid()
      modifies this, Latches(), deliverOps
      ensures Valid()
      ensures Model() == Spec.TrySend(old(Model()), old(Open()), v)
      ensures
        var o := Spec.Decide(old(Model()), old(Open()));
        && sent == !o.Refused? && left == (if sent then None else Some(v))
        && (forall w :: w in old(deliverOps) ==>
              w.inbox == old(w.inbox) + if o.Delivered? && w == old(deliverOps)[o.position] then [v] else [])
        && (forall l :: l in old(Latches()) ==>
              l.transferred == (old(l.transferred) || (o.Delivered? && l == old(deliverOps)[o.position].latch)))
      ensures forall l :: l in old(Latches()) ==> !l.locked
    {
      var taken := Walk(v);
      if taken {
        return true, None;
      }
      if |queue| >= capacity {
        return false, Some(v);
      }
      queue := queue + [v];
      return true, None;
    }
  }
}
