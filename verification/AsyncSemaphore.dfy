/**
 The asynchronous semaphore over its intrusive ring of parked operations, each
 method proved against the function of SemaphoreSpec that says what it does.
*/
module AsyncSemaphore {
  import opened Sequences
  import opened Tasks
  import opened BilistNode
  import Spec = SemaphoreSpec

  /** The kinds of cancellation a signal asks for. */
  datatype CancellationType = CancellationType(terminal: bool, partial: bool, total: bool)

  function OpsOf(nodes: seq<Node>): (r: seq<OpId>)
    ensures |r| == |nodes|
  {
    seq(|nodes|, i requires 0 <= i < |nodes| => nodes[i].op)
  }

  lemma OpsOfMiddle(a: seq<Node>, n: Node, b: seq<Node>)
    ensures OpsOf(a + [n] + b) == OpsOf(a) + [n.op] + OpsOf(b)
    ensures OpsOf(a + b) == OpsOf(a) + OpsOf(b)
  {
  }

  lemma OpsOfAppend(ring: seq<Node>, n: Node)
    requires ring != []
    ensures OpsOf((ring + [n])[1..]) == OpsOf(ring[1..]) + [n.op]
    ensures ring[..|ring|] + [n] + ring[|ring|..] == ring + [n]
  {
    assert (ring + [n])[1..] == ring[1..] + [n];
  }

  ghost predicate Within(r: seq<Node>, s: seq<Node>) {
    forall i :: 0 <= i < |r| ==> r[i] in s
  }

  /** Each linked node, and nothing else, is assigned to the slot of its operation. */
  ghost predicate Slotted(ring: seq<Node>, slots: map<OpId, Node>) {
    && (forall i :: 0 < i < |ring| ==> ring[i].op in slots && slots[ring[i].op] == ring[i])
    && (forall op :: op in slots ==> exists i :: 0 < i < |ring| && ring[i].op == op)
  }

  lemma SlottedDrop(ring: seq<Node>, slots: map<OpId, Node>, k: nat)
    requires Slotted(ring, slots) && 0 < k < |ring|
    requires forall i :: 0 < i < |ring| && i != k ==> ring[i].op != ring[k].op
    ensures Slotted(DropAt(ring, k), slots - {ring[k].op})
  {
    var r, s := DropAt(ring, k), slots - {ring[k].op};
    assert forall i :: 0 < i < |r| ==> r[i] == ring[if i < k then i else i + 1];
    forall op | op in s ensures exists i :: 0 < i < |r| && r[i].op == op {
      var j :| 0 < j < |ring| && ring[j].op == op;
      assert r[if j < k then j else j - 1] == ring[j];
    }
  }

  lemma SlottedAdd(ring: seq<Node>, slots: map<OpId, Node>, n: Node)
    requires Slotted(ring, slots) && ring != [] && n.op !in slots
    ensures Slotted(ring + [n], slots[n.op := n])
  {
    var r, s := ring + [n], slots[n.op := n];
    forall op | op in s ensures exists i :: 0 < i < |r| && r[i].op == op {
      if op == n.op {
        assert r[|ring|] == n;
      } else {
        var j :| 0 < j < |ring| && ring[j].op == op;
        assert r[j] == ring[j];
      }
    }
  }

  /** An effective signal takes a parked operation out of the waiting list and posts
      operation_aborted for it; otherwise nothing happens. */
  ghost predicate Aborts(
    op: OpId, effective: bool, was: seq<OpId>, waiters: seq<OpId>, before: seq<Task>, queue: seq<Task>)
  {
    if op in was && effective
    then op !in waiters && queue == before + [Resume(op, OperationAborted)]
    else waiters == was && queue == before
  }

  lemma CancelAborts(m: Spec.Sem, op: OpId, effective: bool, queue: seq<Task>)
    ensures var e := if effective then Spec.Cancel(m, op) else Spec.Effect(m, []);
      Aborts(op, effective, m.waiters, e.sem.waiters, queue, queue + e.posted)
  {
    WithoutTimes(m.waiters, op);
    TimesIn(Without(m.waiters, op), op);
    assert queue + [] == queue;
  }

  class Semaphore {
    const waiters: Node
    const exec: Executor
    var count: int
    /** The cancellation slots of the handlers: the wait operation, if any, that each slot would complete. */
    var slots: map<OpId, Node>
    /** The ring, head first. */
    ghost var ring: seq<Node>

    ghost predicate Valid()
      reads this, ring
    {
      && ring != [] && ring[0] == waiters && Ring(ring)
      && count >= 0
      && Slotted(ring, slots)
    }

    ghost function Model(): Spec.Sem
      reads this
      requires ring != []
    {
      Spec.Sem(count, OpsOf(ring[1..]))
    }

    constructor (exec: Executor, initialCount: int)
      requires initialCount >= 0
      ensures Valid() && this.exec == exec && fresh(ring)
      ensures Model() == Spec.Sem(initialCount, [])
    {
      this.exec := exec;
      count := initialCount;
      slots := map[];
      var head := new Node(0);
      waiters := head;
      ring := [head];
    }

    /** A parked operation is known by its identifier as well as by its node. */
    lemma ParkedAt(k: nat)
      requires Valid() && 0 < k < |ring|
      ensures Without(OpsOf(ring[1..]), ring[k].op) == OpsOf(DropAt(ring, k)[1..])
      ensures ring[k].op in OpsOf(ring[1..])
      ensures forall i :: 0 < i < |ring| && i != k ==> ring[i].op != ring[k].op
    {
      var a, b := ring[1..k], ring[k + 1..];
      assert ring[1..] == a + [ring[k]] + b;
      assert DropAt(ring, k)[1..] == a + b;
      OpsOfMiddle(a, ring[k], b);
      assert forall i :: 0 < i < |ring| && i != k ==> ring[i].op != ring[k].op;
      assert forall i :: 0 <= i < |a| ==> OpsOf(a)[i] == ring[i + 1].op;
      assert forall i :: 0 <= i < |b| ==> OpsOf(b)[i] == ring[k + 1 + i].op;
      WithoutMiddle(OpsOf(a), ring[k].op, OpsOf(b));
    }

    /** The slots hold exactly the parked operations. */
    lemma SlotsAreParked(op: OpId)
      requires Valid()
      ensures op in slots <==> op in Model().waiters
    {
      assert forall i :: 0 < i < |ring| ==> OpsOf(ring[1..])[i - 1] == ring[i].op;
    }

    /** Clears the cancellation slot, unlinks and posts the handler with ec. */
    method Complete(node: Node, ec: ErrorCode, ghost k: nat)
      requires Valid() && 0 < k < |ring| && ring[k] == node
      modifies this, ring, exec
      ensures Valid() && ring == DropAt(old(ring), k) && count == old(count)
      ensures Model().waiters == Without(old(Model().waiters), node.op)
      ensures exec.queue == old(exec.queue) + [Resume(node.op, ec)]
    {
      ParkedAt(k);
      SlottedDrop(ring, slots, k);
      slots := slots - {node.op};
      node.Unlink(ring, k);
      ring := ring[..k] + ring[k + 1..];
      exec.Post(Resume(node.op, ec));
    }

    method AddWaiter(waiter: Node)
      requires Valid() && waiter !in ring && waiter.op !in slots
      modifies this, ring, waiter
      ensures Valid() && ring == old(ring) + [waiter] && count == old(count)
      ensures Model() == old(Model()).(waiters := old(Model().waiters) + [waiter.op])
    {
      SlottedAdd(ring, slots, waiter);
      OpsOfAppend(ring, waiter);
      waiter.LinkBefore(waiters, ring, |ring|);
      ring := ring + [waiter];
      slots := slots[waiter.op := waiter];
    }

    /** Initiates the wait of operation op, which is not parked already. */
    method AsyncAcquire(op: OpId)
      requires Valid() && op !in Model().waiters
      modifies this, ring, exec
      ensures Valid() && fresh(set n | n in ring && n !in old(ring))
      ensures
        var e := Spec.Acquire(old(Model()), op);
        Model() == e.sem && exec.queue == old(exec.queue) + e.posted
    {
      if count != 0 {
        count := count - 1;
        exec.Post(Resume(op, Success));
        return;
      }
      var model := new Node(op);
      SlotsAreParked(op);
      AddWaiter(model);
    }

    method TryAcquire() returns (acquired: bool)
      requires Valid()
      modifies this`count
      ensures Valid()
      ensures (Model(), acquired) == Spec.TryAcquire(old(Model()))
      ensures acquired <==> old(count) > 0
      ensures count == old(count) - (if acquired then 1 else 0) && ring == old(ring)
    {
      acquired := false;
      if count > 0 {
        count := count - 1;
        acquired := true;
      }
    }

    method Release()
      requires Valid()
      modifies this, ring, exec
      ensures Valid() && Within(ring, old(ring))
      ensures
        var e := Spec.Release(old(Model()));
        Model() == e.sem && exec.queue == old(exec.queue) + e.posted
    {
      count := count + 1;
      if waiters.next == waiters {
        return;
      }
      count := count - 1;
      CompleteFirst(Success);
    }

    /** Removing the operation that has waited longest leaves the others. */
    lemma FirstOnly()
      requires Valid() && 1 < |ring|
      ensures Without(Model().waiters, ring[1].op) == Model().waiters[1..]
      ensures Model().waiters[0] == ring[1].op
    {
      ParkedAt(1);
      assert DropAt(ring, 1)[1..] == ring[1..][1..];
      assert OpsOf(ring[1..][1..]) == OpsOf(ring[1..])[1..];
    }

    /** Completes the operation that has waited longest. */
    method CompleteFirst(ec: ErrorCode)
      requires Valid() && 1 < |ring|
      modifies this, ring, exec
      ensures Valid() && |ring| == |old(ring)| - 1 && Within(ring, old(ring))
      ensures Model() == old(Model()).(waiters := old(Model().waiters)[1..])
      ensures exec.queue == old(exec.queue) + [Resume(old(Model().waiters)[0], ec)]
    {
      FirstOnly();
      Complete(waiters.next, ec, 1);
    }

    lemma OnlyTheHead(all: seq<OpId>, sz: nat, ec: ErrorCode)
      requires Valid() && waiters.next == waiters && sz <= |all| && Model().waiters == all[sz..]
      ensures ring == [waiters] && Model().waiters == [] && sz == |all| && Wake(all[..sz], ec) == Wake(all, ec)
    {
      assert ring[1..] == [] && all[..sz] == all;
    }

    /** The loop that release_all and the destructor share: completes the first
        waiter, which unlinks it, until the head is linked to itself. */
    method Drain(ec: ErrorCode) returns (sz: nat)
      requires Valid()
      modifies this, ring, exec
      ensures Valid() && ring == [waiters]
      ensures Model() == old(Model()).(waiters := []) && sz == |old(Model().waiters)|
      ensures exec.queue == old(exec.queue) + Wake(old(Model().waiters), ec)
    {
      sz := 0;
      ghost var all := Model().waiters;
      while waiters.next != waiters
        invariant Valid() && |old(ring)| == sz + |ring| && Within(ring, old(ring))
        invariant Model() == old(Model()).(waiters := all[sz..])
        invariant exec.queue == old(exec.queue) + Wake(all[..sz], ec)
        decreases |ring|
      {
        WakeNext(all, sz, ec);
        CompleteFirst(ec);
        sz := sz + 1;
      }
      OnlyTheHead(all, sz, ec);
    }

    method ReleaseAll() returns (sz: nat)
      requires Valid()
      modifies this, ring, exec
      ensures Valid() && ring == [waiters] && sz == |old(Model().waiters)|
      ensures
        var e := Spec.ReleaseAll(old(Model()));
        Model() == e.sem && exec.queue == old(exec.queue) + e.posted
    {
      sz := Drain(Success);
    }

    /** The destructor. */
    method Destroy()
      requires Valid()
      modifies this, ring, exec
      ensures Valid() && ring == [waiters]
      ensures
        var e := Spec.Destroy(old(Model()));
        Model() == e.sem && exec.queue == old(exec.queue) + e.posted
    {
      var sz := Drain(OperationAborted);
    }

    /** Emits a cancellation signal on the slot of operation op. */
    method Emit(op: OpId, kind: CancellationType)
      requires Valid()
      modifies this, ring, exec
      ensures Valid() && Within(ring, old(ring))
      ensures
        var e := if kind.terminal || kind.partial || kind.total then Spec.Cancel(old(Model()), op)
                 else Spec.Effect(old(Model()), []);
        Model() == e.sem && exec.queue == old(exec.queue) + e.posted
      ensures Aborts(op, kind.terminal || kind.partial || kind.total, old(Model().waiters), Model().waiters,
                     old(exec.queue), exec.queue)
    {
      SlotsAreParked(op);
      CancelAborts(Model(), op, kind.terminal || kind.partial || kind.total, exec.queue);
      if op in slots {
        ghost var k :| 0 < k < |ring| && ring[k].op == op;
        ParkedAt(k);
        if kind.terminal || kind.partial || kind.total {
          Complete(slots[op], OperationAborted, k);
        }
      }
    }

    method Value() returns (v: int)
      requires Valid()
      ensures v == Spec.Value(Model())
    {
      if waiters.next == waiters {
        return count;
      }
      var sz := waiters.Size(ring);
      v := count - sz;
    }
  }
}
