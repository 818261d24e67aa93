/**
 Transfer latches and transaction objects as one thread sees them.  What other
 threads may do in between is the subject of module Transactions.
*/
module TransferLatch {

  class Latch {
    var transferred: bool
    /** Whether the latch's mutex is locked. */
    var locked: bool

    constructor ()
      ensures !transferred && !locked
    {
      transferred, locked := false, false;
    }

    predicate MayCommit()
      reads this
    {
      !transferred
    }

    method Lock()
      requires !locked
      modifies this`locked
      ensures locked
    {
      locked := true;
    }

    method Unlock()
      requires locked
      modifies this`locked
      ensures !locked
    {
      locked := false;
    }

    method Commit()
      requires locked && MayCommit()
      modifies this
      ensures !MayCommit() && !locked
    {
      transferred := true;
      Unlock();
    }

    method Rollback()
      requires locked && MayCommit()
      modifies this`locked
      ensures MayCommit() && !locked
    {
      Unlock();
    }

    method Reset()
      modifies this`transferred
      ensures MayCommit()
    {
      transferred := false;
    }
  }

  /** A transaction over one latch; latch is null once it has ended or if it was denied. */
  class Transaction1 {
    var latch: Latch?

    ghost predicate Valid()
      reads this, latch
    {
      latch != null ==> latch.locked && latch.MayCommit()
    }

    constructor (latch: Latch?)
      ensures this.latch == latch
    {
      this.latch := latch;
    }

    predicate MayCommit()
      reads this
    {
      latch != null
    }

    method Commit()
      requires Valid() && MayCommit()
      modifies this, latch
      ensures !MayCommit() && old(latch).transferred && !old(latch).locked
    {
      var l := latch;
      latch := null;
      l.Commit();
    }

    /** Does nothing on a transaction that was denied or has ended. */
    method Rollback()
      requires Valid()
      modifies this, if latch == null then {} else {latch}
      ensures !MayCommit()
      ensures old(latch) != null ==> !old(latch).transferred && !old(latch).locked
    {
      var l := latch;
      latch := null;
      if l != null {
        l.Rollback();
      }
    }

    /** The destructor. */
    method Destroy()
      requires Valid()
      modifies this, if latch == null then {} else {latch}
      ensures !MayCommit()
      ensures old(latch) != null ==> !old(latch).transferred && !old(latch).locked
    {
      Rollback();
    }
  }

  /** A transaction over two latches, both named or both null. */
  class Transaction2 {
    var latch1: Latch?
    var latch2: Latch?

    ghost predicate Valid()
      reads this, latch1, latch2
    {
      && (latch1 == null <==> latch2 == null)
      && (latch1 != null ==> latch1 != latch2 && latch1.locked && latch2.locked
                             && latch1.MayCommit() && latch2.MayCommit())
    }

    constructor (latch1: Latch?, latch2: Latch?)
      ensures this.latch1 == latch1 && this.latch2 == latch2
    {
      this.latch1, this.latch2 := latch1, latch2;
    }

    predicate MayCommit()
      reads this
    {
      latch1 != null
    }

    method Commit()
      requires Valid() && MayCommit()
      modifies this, latch1, latch2
      ensures Valid() && !MayCommit()
      ensures old(latch1).transferred && !old(latch1).locked
      ensures old(latch2).transferred && !old(latch2).locked
    {
      var l1 := latch1;
      latch1 := null;
      l1.Commit();
      var l2 := latch2;
      latch2 := null;
      l2.Commit();
    }

    method Rollback()
      requires Valid()
      modifies this, if latch1 == null then {} else {latch1, latch2}
      ensures Valid() && !MayCommit()
      ensures old(latch1) != null ==>
        && !old(latch1).transferred && !old(latch1).locked
        && !old(latch2).transferred && !old(latch2).locked
    {
      var l1 := latch1;
      latch1 := null;
      if l1 != null {
        l1.Rollback();
        var l2 := latch2;
        latch2 := null;
        l2.Rollback();
      }
    }

    /** The destructor. */
    method Destroy()
      requires Valid()
      modifies this, if latch1 == null then {} else {latch1, latch2}
      ensures Valid() && !MayCommit()
      ensures old(latch1) != null ==>
        && !old(latch1).transferred && !old(latch1).locked
        && !old(latch2).transferred && !old(latch2).locked
    {
      Rollback();
    }
  }

  method Begin1(latch: Latch) returns (t: Transaction1)
    requires !latch.locked
    modifies latch`locked
    ensures fresh(t) && t.Valid()
    ensures t.latch == if latch.MayCommit() then latch else null
    ensures latch.locked == t.MayCommit()
  {
    latch.Lock();
    if latch.MayCommit() {
      t := new Transaction1(latch);
      return;
    }
    latch.Unlock();
    t := new Transaction1(null);
  }

  method Begin2(latch1: Latch, latch2: Latch) returns (t: Transaction2)
    requires latch1 != latch2 && !latch1.locked && !latch2.locked
    modifies latch1`locked, latch2`locked
    ensures fresh(t) && t.Valid()
    ensures t.MayCommit() == (latch1.MayCommit() && latch2.MayCommit())
    ensures t.MayCommit() ==> t.latch1 == latch1 && t.latch2 == latch2
    ensures latch1.locked == latch2.locked == t.MayCommit()
  {
    latch1.Lock();
    latch2.Lock();
    if latch1.MayCommit() && latch2.MayCommit() {
      t := new Transaction2(latch1, latch2);
      return;
    }
    latch1.Unlock();
    latch2.Unlock();
    t := new Transaction2(null, null);
  }
}
