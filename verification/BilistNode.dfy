/** The intrusive circular doubly linked list. */
module BilistNode {

  class Node {
    /** The operation this node is the base of; unused in a list head. */
    const op: nat
    var next: Node
    var prev: Node

    constructor (op: nat)
      ensures this.op == op && next == this && prev == this
      ensures Ring([this])
    {
      this.op := op;
      next, prev := this, this;
    }

    /** Links this node, which is in no ring, before the given member of ring r.
        Before r[0] is the end of the list that r[0] heads. */
    method LinkBefore(next: Node, ghost r: seq<Node>, ghost k: nat)
      requires Ring(r) && this !in r
      requires 0 < k <= |r| && next == (if k < |r| then r[k] else r[0])
      modifies this, next`prev, next.prev`next
      ensures Ring(r[..k] + [this] + r[k..])
    {
      this.next := next;
      prev := next.prev;
      prev.next := this;
      next.prev := this;
    }

    /** Removes this node from its ring; the other members keep their order. */
    method Unlink(ghost r: seq<Node>, ghost k: nat)
      requires Ring(r) && 1 < |r| && k < |r| && r[k] == this
      modifies next`prev, prev`next
      ensures Ring(r[..k] + r[k + 1..])
    {
      var p := prev;
      var n := next;
      n.prev := p;
      p.next := n;
    }

    /** The number of nodes linked behind this head. */
    method Size(ghost r: seq<Node>) returns (sz: nat)
      requires Ring(r) && r[0] == this
      ensures sz == |r| - 1
    {
      sz := 0;
      var p := next;
      while p != this
        invariant sz < |r|
        invariant p == if sz + 1 < |r| then r[sz + 1] else this
        decreases |r| - sz
      {
        sz := sz + 1;
        p := p.next;
      }
    }
  }

  /** r lists the members of one ring, each once, in next order. */
  ghost predicate Ring(r: seq<Node>)
    reads r
  {
    && r != []
    && (forall i, j :: 0 <= i < j < |r| ==> r[i] != r[j])
    && (forall i {:trigger r[i].next} :: 0 <= i < |r| ==> r[i].next == if i + 1 < |r| then r[i + 1] else r[0])
    && (forall i {:trigger r[i].prev} :: 0 <= i < |r| ==> r[i].prev == if 0 < i then r[i - 1] else r[|r| - 1])
  }

  /** A ring is determined by its head: it cannot be read as two different lists. */
  lemma {:induction false} RingUnique(r: seq<Node>, r': seq<Node>, n: nat)
    requires Ring(r) && Ring(r') && r[0] == r'[0] && n <= |r|
    ensures n <= |r'| && r[..n] == r'[..n]
  {
    if n > 1 {
      RingUnique(r, r', n - 1);
      assert r[n - 2] == r'[..n - 1][n - 2] == r'[n - 2];
      assert r[n - 2].next == r[n - 1];
    } else if n == 1 {
      assert r[..1] == [r[0]] == r'[..1];
    }
  }
}
