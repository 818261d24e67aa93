/** The latched read as an object: one pass of its loop each time its wait for readability completes. */
module LatchedRead {
  import opened TransferLatch
  import Spec = ReadSpec

  /** The socket: its blocking mode and the bytes that have arrived and not been read. */
  class Socket {
    var nonBlocking: bool
    var stream: seq<Spec.Byte>

    constructor ()
      ensures !nonBlocking && stream == []
    {
      nonBlocking, stream := false, [];
    }

    /** Reads without blocking. What the operating system answers is the
        environment's choice: some of the bytes that fit, an error or would_block. */
    method ReadSome(answer: Spec.Answer) returns (ec: Spec.ErrorCode, bytes: seq<Spec.Byte>)
      requires nonBlocking
      modifies this`stream
      ensures (ec, bytes) == Spec.Read(old(stream), answer)
      ensures old(stream) == bytes + stream
    {
      match answer {
        case Bytes(n) =>
          var k := if n <= |stream| then n else |stream|;
          ec, bytes := Spec.Success, stream[..k];
          stream := stream[k..];
        case Fails(code) => ec, bytes := Spec.Failure(code), [];
        case Blocks => ec, bytes := Spec.WouldBlock, [];
      }
    }
  }

  class AtomicReadOp {
    const sock: Socket
    const latch: Latch
    /** The bytes placed in the caller's buffer. */
    var buffer: seq<Spec.Byte>
    /** What the operation completed with, once it has. */
    var status: Spec.Status

    constructor (sock: Socket, latch: Latch)
      ensures this.sock == sock && this.latch == latch && buffer == [] && status == Spec.Waiting
    {
      this.sock, this.latch := sock, latch;
      buffer, status := [], Spec.Waiting;
    }

    ghost function Model(): Spec.Reader
      reads this, sock
    {
      Spec.Reader(sock.stream, buffer, status)
    }

    /** No byte has been moved since the operation was as was. */
    ghost predicate Unread(was: Spec.Reader)
      reads this, sock
    {
      buffer == was.taken && sock.stream == was.stream
    }

    /** The wait for readability has completed with waitEc: one pass of the loop.
        The latch's mutex and the socket's blocking mode end as they were. */
    method Resume(waitEc: Spec.ErrorCode, answer: Spec.Answer)
      requires status.Waiting? && !latch.locked
      modifies this, sock, latch
      ensures !latch.locked && sock.nonBlocking == old(sock.nonBlocking)
      ensures (Model(), latch.transferred) == Spec.Pass(old(Model()), old(latch.transferred), waitEc, answer)
      ensures old(latch.transferred) ==>
        status == Spec.Completed(Spec.CompletionDenied, 0) && latch.transferred && Unread(old(Model()))
      ensures !old(latch.transferred) && waitEc != Spec.Success ==>
        status == Spec.Completed(waitEc, 0) && latch.transferred && Unread(old(Model()))
      ensures !old(latch.transferred) && waitEc == Spec.Success && answer.Blocks? ==>
        status == Spec.Waiting && !latch.transferred && Unread(old(Model()))
      ensures !old(latch.transferred) && waitEc == Spec.Success && answer.Fails? ==>
        status == Spec.Completed(Spec.Failure(answer.code), 0) && latch.transferred && Unread(old(Model()))
      ensures !old(latch.transferred) && waitEc == Spec.Success && answer.Bytes? ==>
        var was, k := old(sock.stream), |old(sock.stream)| - |sock.stream|;
        && k == (if answer.n <= |was| then answer.n else |was|)
        && status == Spec.Completed(Spec.Success, k) && latch.transferred
        && buffer == old(buffer) + was[..k] && sock.stream == was[k..]
    {
      var trans := Begin1(latch);
      if !trans.MayCommit() {
        trans.Rollback();
        status := Spec.Completed(Spec.CompletionDenied, 0);
        trans.Destroy();
        return;
      }
      var ec, size := waitEc, 0;
      if ec != Spec.Success {
        trans.Commit();
        status := Spec.Completed(ec, size);
        trans.Destroy();
        return;
      }
      var wasBlocked := sock.nonBlocking;
      sock.nonBlocking := true;
      var bytes;
      ec, bytes := sock.ReadSome(answer);
      buffer, size := buffer + bytes, |bytes|;
      sock.nonBlocking := wasBlocked;
      if ec == Spec.WouldBlock {
        trans.Rollback();
        trans.Destroy();
        return;
      }
      trans.Commit();
      status := Spec.Completed(ec, size);
      trans.Destroy();
    }
  }
}
