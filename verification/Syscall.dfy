/** The cancellable non-blocking system calls of `runtime::syscall`, over the kernel of module `Kernel`. */
module Syscall {
  import K = Kernel

  /** The source's `Interface`; `io_uring` is its only field there too. */
  class Interface {
    var ring: K.Ring
    const capacity: nat

    constructor (capacity: nat)
      requires capacity > 0
      ensures ring == K.EMPTY && this.capacity == capacity
    {
      this.ring := K.EMPTY;
      this.capacity := capacity;
    }

    method Submit()
      modifies this
      ensures ring == K.Submit(old(ring))
    {
      while ring.sq != []
        invariant K.Submit(ring) == K.Submit(old(ring))
        decreases |ring.sq|
      {
        ring := K.Accept(ring);
      }
    }

    method Issue(userData: nat, opcode: K.Opcode, op: nat)
      requires capacity > 0
      modifies this
      ensures ring == K.Issue(old(ring), capacity, K.Sqe(userData, opcode, op))
      ensures |old(ring).sq| <= capacity ==> |ring.sq| <= capacity
    {
      while |ring.sq| >= capacity
        invariant ring == old(ring) || (|old(ring).sq| >= capacity && ring == K.Submit(old(ring)))
        decreases |ring.sq|
      {
        Submit();
      }
      assert |ring.sq| < capacity;
      ring := ring.(sq := ring.sq + [K.Sqe(userData, opcode, op)]);
    }

    method Cancel(target: nat, op: nat)
      requires capacity > 0
      modifies this
      ensures ring == K.Issue(old(ring), capacity, K.Sqe(K.ASYNC_CANCELLATION_USER_DATA, K.AsyncCancel(target), op))
      ensures K.CancelUnderWay(ring, target, op)
      ensures |old(ring).sq| <= capacity ==> |ring.sq| <= capacity
    {
      K.IssuePutsUnderWay(ring, capacity, target, op);
      Issue(K.ASYNC_CANCELLATION_USER_DATA, K.AsyncCancel(target), op);
    }

    method ProcessCompleted() returns (results: seq<K.Cqe>)
      modifies this
      ensures results == K.OfOperations(old(ring).cq)
      ensures ring == old(ring).(cq := [])
    {
      results := [];
      var i := 0;
      while i < |ring.cq|
        invariant 0 <= i <= |ring.cq| && ring == old(ring)
        invariant results == K.OfOperations(ring.cq[..i])
      {
        var cqe := ring.cq[i];
        K.OfOperationsAppend(ring.cq[..i], cqe);
        assert ring.cq[..i] + [cqe] == ring.cq[..i + 1];
        i := i + 1;
        if cqe.userData == K.ASYNC_CANCELLATION_USER_DATA {
          continue;
        }
        results := results + [cqe];
      }
      assert ring.cq[..i] == ring.cq;
      ring := ring.(cq := []);
    }

    /**
     `wait_for_completed`: everything is submitted, and unless a completion is there already the kernel finishes
     one request. Which one, and how, is the environment's choice. With nothing to finish, the call never comes back.
     */
    method WaitForCompleted(request: nat, result: int) returns (back: bool)
      modifies this
      ensures ring == K.Wait(old(ring), request, result)
      ensures back <==> K.HasWork(K.Submit(old(ring)))
      ensures if back then ring.cq != [] else K.IsIdle(ring)
    {
      Submit();
      if ring.cq == [] {
        if ring.inFlight == [] {
          return false;
        }
        ring := K.Complete(ring, K.Chosen(ring, request), result);
      }
      return true;
    }
  }
}
