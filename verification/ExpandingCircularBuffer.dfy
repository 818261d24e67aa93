/** The expanding circular buffer refines a first-in first-out sequence. */
module ExpandingCircularBuffer {

  const INITIAL_CAPACITY: nat := 16
  const SIZE_MAX: nat := 0xFFFF_FFFF_FFFF_FFFF

  /** The elements that a buffer over storage s holds, from position front on, wrapping at the end. */
  function Window<T>(s: seq<T>, front: nat, size: nat): (r: seq<T>)
    requires size <= |s| && (size > 0 ==> front < |s|)
    ensures |r| == size
  {
    seq(size, i requires 0 <= i < size => s[if front + i < |s| then front + i else front + i - |s|])
  }

  /** Writing behind the last element of a window that is not full extends it. */
  lemma WindowPut<T>(s: seq<T>, front: nat, size: nat, back: nat, p: T)
    requires size < |s| && front < |s|
    requires back == if front + size < |s| then front + size else front + size - |s|
    ensures Window(s[back := p], front, size + 1) == Window(s, front, size) + [p]
  {
  }

  /** Moving the front past the first element of a window leaves the others. */
  lemma WindowPop<T>(s: seq<T>, front: nat, size: nat)
    requires 0 < size <= |s| && front < |s|
    ensures Window(s, if front + 1 < |s| then front + 1 else 0, size - 1) == Window(s, front, size)[1..]
  {
  }

  /** Copies storage[from..to] to target[at..] and returns the position after the last element. */
  method Copy<T>(storage: array<T>, from: nat, to: nat, target: array<T>, at: nat) returns (last: nat)
    requires from <= to <= storage.Length && at + (to - from) <= target.Length && storage != target
    modifies target
    ensures last == at + (to - from)
    ensures forall k :: 0 <= k < target.Length ==>
      target[k] == if at <= k < last then storage[from + (k - at)] else old(target[k])
  {
    var i := from;
    last := at;
    while i < to
      invariant from <= i <= to && last == at + (i - from)
      invariant forall k :: 0 <= k < target.Length ==>
        target[k] == if at <= k < last then storage[from + (k - at)] else old(target[k])
    {
      target[last] := storage[i];
      i, last := i + 1, last + 1;
    }
  }

  class Buffer<T(0)> {
    var capacity: nat
    var size: nat
    var frontPos: nat
    var backPos: nat
    var storage: array?<T>

    /** History: elements pushed, elements copied by all growths, largest size so far. */
    ghost var pushes: nat
    ghost var copied: nat
    ghost var peak: nat

    ghost predicate Shape()
      reads this
    {
      && (storage == null ==> capacity == size == frontPos == backPos == 0)
      && (storage != null ==>
            && storage.Length == capacity && INITIAL_CAPACITY <= capacity <= SIZE_MAX
            && size <= capacity && frontPos < capacity && backPos < capacity
            && backPos == if frontPos + size < capacity then frontPos + size else frontPos + size - capacity)
    }

    /** The growths so far have copied capacity - 16 elements in all, and were needed. */
    ghost predicate Economical()
      reads this
    {
      && size <= peak <= pushes
      && (storage == null ==> copied == 0 && peak == 0)
      && (storage != null ==> copied == capacity - INITIAL_CAPACITY
                              && (capacity == INITIAL_CAPACITY || capacity < 2 * peak))
    }

    ghost predicate Valid()
      reads this
    {
      Shape() && Economical()
    }

    /** The abstract value: the elements in the order in which they will be popped. */
    ghost function Contents(): (r: seq<T>)
      requires Shape()
      reads this, storage
      ensures |r| == size
    {
      if storage == null then [] else Window(storage[..], frontPos, size)
    }

    constructor ()
      ensures Valid() && Contents() == [] && storage == null
      ensures pushes == copied == peak == 0
    {
      capacity, size, frontPos, backPos, storage := 0, 0, 0, 0, null;
      pushes, copied, peak := 0, 0, 0;
    }

    /** When the buffer is full the front is the back: the branch of grow for an
        unsplit buffer is not taken. */
    lemma FullIsSplit()
      requires Valid() && storage != null && size == capacity
      ensures frontPos == backPos
    {
    }

    method Init()
      requires Valid() && storage == null
      modifies this
      ensures Valid() && Contents() == [] && size == 0 && capacity == INITIAL_CAPACITY
      ensures fresh(storage)
      ensures pushes == old(pushes) && peak == old(peak) && copied == old(copied)
    {
      storage := new T[INITIAL_CAPACITY];
      capacity := INITIAL_CAPACITY;
      frontPos := 0;
      backPos := 0;
    }

    /** Copies the elements, in order, to the start of target: in two pieces if
        they wrap around the end of the storage, else in one. */
    method CopyOut(target: array<T>) returns (copiedTo: nat)
      requires Shape() && size > 0 && size <= target.Length && storage != target
      modifies target
      ensures copiedTo == size
      ensures forall k :: 0 <= k < size ==> target[k] == Contents()[k]
    {
      if backPos <= frontPos {
        copiedTo := Copy(storage, frontPos, capacity, target, 0);
        copiedTo := Copy(storage, 0, backPos, target, copiedTo);
      } else {
        copiedTo := Copy(storage, frontPos, backPos, target, 0);
      }
    }

    /** Doubles the storage and lays the elements out from its start. Fails, with
        no effect, if the doubled capacity cannot be represented. push calls it on
        a full buffer; it is right for any buffer that is not empty. */
    method Grow() returns (ok: bool)
      requires Shape() && size > 0
      modifies this
      ensures ok <==> old(capacity) <= SIZE_MAX / 2
      ensures !ok ==> unchanged(this)
      ensures ok ==>
        && Shape() && Contents() == old(Contents()) && capacity == 2 * old(capacity) && size == old(size)
        && fresh(storage) && copied == old(copied) + old(size)
        && pushes == old(pushes) && peak == old(peak)
    {
      if capacity > SIZE_MAX / 2 {
        return false;
      }
      var newCap := capacity * 2;
      var newStorage := new T[newCap];
      var newSize := CopyOut(newStorage);
      ghost var was := Contents();
      storage := newStorage;
      capacity := newCap;
      frontPos := 0;
      backPos := newSize;
      copied := copied + newSize;
      assert Contents() == was;
      ok := true;
    }

    /** Stores p behind the elements of a buffer that is not full. */
    method Put(p: T)
      requires Shape() && size < capacity
      requires copied == capacity - INITIAL_CAPACITY && size <= peak <= pushes
      requires capacity == INITIAL_CAPACITY || capacity < 2 * peak || capacity == 2 * size
      modifies this, storage
      ensures Valid() && storage == old(storage) && Contents() == old(Contents()) + [p]
      ensures pushes == old(pushes) + 1 && copied == old(copied) && capacity == old(capacity)
      ensures size == old(size) + 1 && peak == if size > old(peak) then size else old(peak)
    {
      WindowPut(storage[..], frontPos, size, backPos, p);
      size := size + 1;
      storage[backPos] := p;
      backPos := backPos + 1;
      if backPos >= capacity {
        backPos := backPos - capacity;
      }
      pushes := pushes + 1;
      peak := if size > peak then size else peak;
    }

    /** Appends p, or changes nothing if the buffer is full and cannot grow. All
        growths together copy fewer elements than twice the pushes, and the
        capacity stays below twice the largest size there has been, or at 16. */
    method Push(p: T) returns (ok: bool)
      requires Valid()
      modifies this, storage
      ensures Valid() && (storage == old(storage) || fresh(storage))
      ensures ok <==> !(old(size) == old(capacity) && old(capacity) > SIZE_MAX / 2)
      ensures |old(Contents())| < 0x8000_0000_0000_0000 ==> ok
      ensures old(storage) == null ==> ok && capacity == 16
      ensures ok && old(storage) != null && old(size) == old(capacity) ==> capacity == 2 * old(capacity)
      ensures old(size) < old(capacity) ==> capacity == old(capacity)
      ensures Contents() == if ok then old(Contents()) + [p] else old(Contents())
      ensures !ok ==> unchanged(this)
      ensures pushes == old(pushes) + (if ok then 1 else 0)
      ensures peak == if ok && size > old(peak) then size else old(peak)
      ensures copied == old(copied) + if ok && old(storage) != null && storage != old(storage) then old(size) else 0
      ensures ok ==> (storage != old(storage) <==> old(size) == old(capacity))
      ensures copied < 2 * pushes
      ensures capacity == INITIAL_CAPACITY || capacity < 2 * peak
    {
      if size == capacity {
        if storage == null {
          Init();
        } else {
          var grown := Grow();
          if !grown {
            return false;
          }
        }
      }
      Put(p);
      ok := true;
    }

    method Pop() returns (result: T)
      requires Valid() && size > 0
      modifies this
      ensures Valid() && storage == old(storage)
      ensures result == old(Contents())[0] && Contents() == old(Contents())[1..]
      ensures pushes == old(pushes) && copied == old(copied) && peak == old(peak)
    {
      WindowPop(storage[..], frontPos, size);
      result := storage[frontPos];
      frontPos := frontPos + 1;
      if frontPos >= capacity {
        frontPos := frontPos - capacity;
      }
      size := size - 1;
    }

    method Size() returns (n: nat)
      requires Valid()
      ensures n == |Contents()|
    {
      n := size;
    }
  }
}
