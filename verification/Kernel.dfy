/**
 The io_uring instance behind `runtime::syscall::Interface`, as a FIFO submission queue, the requests
 the kernel has accepted, and a completion queue. User data is a recycled fiber slot, as in the source.
 Two things are bookkeeping of the model that no operation reads: the field `op` of every entry names the one system
 call it belongs to, and `answers` holds what the kernel has answered to each.
 */
module Kernel {
  const ASYNC_CANCELLATION_USER_DATA: nat := 0xFFFF_FFFF_FFFF_FFFF

  datatype Opcode = Operation | AsyncCancel(target: nat)

  datatype Sqe = Sqe(userData: nat, opcode: Opcode, op: nat)

  /** A request in flight. `hits` collects the cancellations that found it by its user data. */
  datatype Request = Request(userData: nat, op: nat, hits: set<nat>)

  datatype Cqe = Cqe(userData: nat, op: nat, result: int)

  datatype Ring = Ring(sq: seq<Sqe>, inFlight: seq<Request>, cq: seq<Cqe>, answers: map<nat, int>)

  const EMPTY := Ring([], [], [], map[])

  // ---------------------------------------------------------------------------------------------
  // What the kernel does
  // ---------------------------------------------------------------------------------------------

  /** An asynchronous cancellation acts on the requests in flight that carry the target user data. */
  function Hit(requests: seq<Request>, target: nat, op: nat): (r: seq<Request>)
    ensures |r| == |requests|
    ensures forall i :: 0 <= i < |r| ==>
      r[i] == if requests[i].userData == target then requests[i].(hits := requests[i].hits + {op}) else requests[i]
  {
    seq(|requests|, i requires 0 <= i < |requests| =>
      if requests[i].userData == target then requests[i].(hits := requests[i].hits + {op}) else requests[i])
  }

  /** The kernel takes the oldest submission. */
  function Accept(r: Ring): Ring
    requires r.sq != []
  {
    var e := r.sq[0];
    match e.opcode
    case Operation => r.(sq := r.sq[1..], inFlight := r.inFlight + [Request(e.userData, e.op, {})])
    case AsyncCancel(target) =>
      r.(sq := r.sq[1..], inFlight := Hit(r.inFlight, target, e.op), cq := r.cq + [Cqe(e.userData, e.op, 0)])
  }

  /** `submit`: the kernel takes every submission, oldest first. */
  function Submit(r: Ring): (r': Ring)
    ensures r'.sq == []
    decreases |r.sq|
  {
    if r.sq == [] then r else Submit(Accept(r))
  }

  /** The kernel finishes the request at position `i` with some result. */
  function Complete(r: Ring, i: nat, result: int): Ring
    requires i < |r.inFlight|
  {
    var q := r.inFlight[i];
    r.(inFlight := r.inFlight[..i] + r.inFlight[i + 1..], cq := r.cq + [Cqe(q.userData, q.op, result)],
       answers := r.answers[q.op := result])
  }

  /** Something has completed or can complete. */
  predicate HasWork(r: Ring) {
    r.cq != [] || r.inFlight != []
  }

  predicate IsIdle(r: Ring) {
    r.sq == [] && r.inFlight == [] && r.cq == []
  }

  /** The request in flight that a wish names: the last one if it is beyond them. */
  function Chosen(r: Ring, wish: nat): (i: nat)
    requires r.inFlight != []
    ensures i < |r.inFlight|
  {
    if wish < |r.inFlight| then wish else |r.inFlight| - 1
  }

  /** After a wait for one completion: the kernel has finished the request it chose, unless one was there already. */
  function Wait(r: Ring, wish: nat, result: int): Ring {
    var submitted := Submit(r);
    if submitted.cq != [] || submitted.inFlight == [] then submitted
    else Complete(submitted, Chosen(submitted, wish), result)
  }

  // ---------------------------------------------------------------------------------------------
  // What the interface asks for
  // ---------------------------------------------------------------------------------------------

  /** Adding one entry: the queue is submitted first when it is full. */
  function Issue(r: Ring, capacity: nat, e: Sqe): Ring {
    var room := if |r.sq| >= capacity then Submit(r) else r;
    room.(sq := room.sq + [e])
  }

  /** The completions of operations, in order: those of cancellations are dropped. */
  function OfOperations(cq: seq<Cqe>): (r: seq<Cqe>) {
    if cq == [] then []
    else if cq[0].userData == ASYNC_CANCELLATION_USER_DATA then OfOperations(cq[1..])
    else [cq[0]] + OfOperations(cq[1..])
  }

  lemma {:induction false} OfOperationsAppend(a: seq<Cqe>, c: Cqe)
    ensures OfOperations(a + [c])
         == OfOperations(a) + (if c.userData == ASYNC_CANCELLATION_USER_DATA then [] else [c])
  {
    if a == [] {
      assert a + [c] == [c];
    } else {
      OfOperationsAppend(a[1..], c);
      assert (a + [c])[1..] == a[1..] + [c];
    }
  }

  // ---------------------------------------------------------------------------------------------
  // Outstanding operations
  // ---------------------------------------------------------------------------------------------

  function Queued(sq: seq<Sqe>, user: nat, op: nat): nat {
    if sq == [] then 0
    else
      (if sq[0].opcode.Operation? && sq[0].userData == user && sq[0].op == op then 1 else 0)
      + Queued(sq[1..], user, op)
  }

  function Requested(rs: seq<Request>, user: nat, op: nat): nat {
    if rs == [] then 0
    else (if rs[0].userData == user && rs[0].op == op then 1 else 0) + Requested(rs[1..], user, op)
  }

  function Posted(cq: seq<Cqe>, user: nat, op: nat): nat {
    if cq == [] then 0
    else (if IsResult(cq[0]) && cq[0].userData == user && cq[0].op == op then 1 else 0) + Posted(cq[1..], user, op)
  }

  predicate IsResult(c: Cqe) {
    c.userData != ASYNC_CANCELLATION_USER_DATA
  }

  /** How often the operation `op` of the fiber `user` has been issued without being handed back. */
  function Outstanding(r: Ring, user: nat, op: nat): nat {
    Queued(r.sq, user, op) + Requested(r.inFlight, user, op) + Posted(r.cq, user, op)
  }

  /** Only cancellations carry the cancellation user data. */
  ghost predicate Tagged(r: Ring) {
    && (forall e :: e in r.sq ==> (e.userData == ASYNC_CANCELLATION_USER_DATA <==> e.opcode.AsyncCancel?))
    && (forall q :: q in r.inFlight ==> q.userData != ASYNC_CANCELLATION_USER_DATA)
  }

  lemma {:induction false} QueuedAppend(sq: seq<Sqe>, e: Sqe, user: nat, op: nat)
    ensures Queued(sq + [e], user, op) == Queued(sq, user, op) + Queued([e], user, op)
  {
    if sq == [] {
      assert sq + [e] == [e];
    } else {
      QueuedAppend(sq[1..], e, user, op);
      assert (sq + [e])[1..] == sq[1..] + [e];
    }
  }

  lemma {:induction false} RequestedConcat(a: seq<Request>, b: seq<Request>, user: nat, op: nat)
    ensures Requested(a + b, user, op) == Requested(a, user, op) + Requested(b, user, op)
  {
    if a == [] {
      assert a + b == b;
    } else {
      RequestedConcat(a[1..], b, user, op);
      assert (a + b)[1..] == a[1..] + b;
    }
  }

  lemma {:induction false} RequestedHit(rs: seq<Request>, target: nat, cancel: nat, user: nat, op: nat)
    ensures Requested(Hit(rs, target, cancel), user, op) == Requested(rs, user, op)
  {
    if rs != [] {
      RequestedHit(rs[1..], target, cancel, user, op);
      assert Hit(rs, target, cancel)[1..] == Hit(rs[1..], target, cancel);
    }
  }

  lemma {:induction false} PostedAppend(cq: seq<Cqe>, c: Cqe, user: nat, op: nat)
    ensures Posted(cq + [c], user, op) == Posted(cq, user, op) + Posted([c], user, op)
  {
    if cq == [] {
      assert cq + [c] == [c];
    } else {
      PostedAppend(cq[1..], c, user, op);
      assert (cq + [c])[1..] == cq[1..] + [c];
    }
  }

  lemma {:induction false} RequestIsCounted(rs: seq<Request>, i: nat)
    requires i < |rs|
    ensures Requested(rs, rs[i].userData, rs[i].op) > 0
  {
    if i > 0 {
      RequestIsCounted(rs[1..], i - 1);
    }
  }

  lemma {:induction false} TwoRequestsCount(rs: seq<Request>, i: nat, k: nat)
    requires i < k < |rs| && rs[k].userData == rs[i].userData && rs[k].op == rs[i].op
    ensures Requested(rs, rs[i].userData, rs[i].op) > 1
  {
    if i > 0 {
      TwoRequestsCount(rs[1..], i - 1, k - 1);
    } else {
      RequestIsCounted(rs[1..], k - 1);
    }
  }

  lemma {:induction false} QueuedIsCounted(sq: seq<Sqe>, i: nat)
    requires i < |sq| && sq[i].opcode.Operation?
    ensures Queued(sq, sq[i].userData, sq[i].op) > 0
  {
    if i > 0 {
      QueuedIsCounted(sq[1..], i - 1);
    }
  }

  lemma {:induction false} PostedIsCounted(cq: seq<Cqe>, i: nat)
    requires i < |cq| && IsResult(cq[i])
    ensures Posted(cq, cq[i].userData, cq[i].op) > 0
  {
    if i > 0 {
      PostedIsCounted(cq[1..], i - 1);
    }
  }

  /** The cancellation at position `i` finds its own operation or nothing once its turn comes. */
  ghost predicate CancelIsOwn(r: Ring, i: nat)
    requires i < |r.sq|
  {
    r.sq[i].opcode.AsyncCancel? ==>
      && (forall j :: 0 <= j < i && r.sq[j].opcode.Operation? && r.sq[j].userData == r.sq[i].opcode.target
            ==> r.sq[j].op == r.sq[i].op)
      && (forall k :: 0 <= k < |r.inFlight| && r.inFlight[k].userData == r.sq[i].opcode.target
            ==> r.inFlight[k].op == r.sq[i].op)
  }

  /** No cancellation has hit, or can still hit, an operation other than the one it was issued for. */
  ghost predicate CancelsAreOwn(r: Ring) {
    && (forall i :: 0 <= i < |r.sq| ==> CancelIsOwn(r, i))
    && (forall k :: 0 <= k < |r.inFlight| ==> r.inFlight[k].hits <= {r.inFlight[k].op})
  }

  /** What moving entries through the kernel never changes. */
  ghost predicate SameWork(r: Ring, r': Ring) {
    && Tagged(r')
    && (forall user, op :: Outstanding(r', user, op) == Outstanding(r, user, op))
    && (CancelsAreOwn(r) ==> CancelsAreOwn(r'))
  }

  lemma AcceptKeeps(r: Ring)
    requires r.sq != [] && Tagged(r)
    ensures SameWork(r, Accept(r))
  {
    var e, r' := r.sq[0], Accept(r);
    assert e in r.sq;
    forall user, op ensures Outstanding(r', user, op) == Outstanding(r, user, op) {
      match e.opcode {
        case Operation =>
          RequestedConcat(r.inFlight, [Request(e.userData, e.op, {})], user, op);
        case AsyncCancel(target) =>
          RequestedHit(r.inFlight, target, e.op, user, op);
          PostedAppend(r.cq, Cqe(e.userData, e.op, 0), user, op);
      }
    }
    if CancelsAreOwn(r) {
      AcceptKeepsCancels(r);
    }
  }

  lemma AcceptKeepsCancels(r: Ring)
    requires r.sq != [] && CancelsAreOwn(r)
    ensures CancelsAreOwn(Accept(r))
  {
    var r' := Accept(r);
    assert CancelIsOwn(r, 0);
    forall i | 0 <= i < |r'.sq| ensures CancelIsOwn(r', i) {
      assert CancelIsOwn(r, i + 1) && r'.sq[i] == r.sq[i + 1];
      forall j | 0 <= j < i ensures r'.sq[j] == r.sq[j + 1] {}
    }
  }

  lemma {:induction false} SubmitKeeps(r: Ring)
    requires Tagged(r)
    ensures SameWork(r, Submit(r))
    decreases |r.sq|
  {
    if r.sq != [] {
      AcceptKeeps(r);
      SubmitKeeps(Accept(r));
    }
  }

  lemma CompleteKeeps(r: Ring, i: nat, result: int)
    requires i < |r.inFlight| && Tagged(r)
    ensures SameWork(r, Complete(r, i, result))
  {
    var q, a, b := r.inFlight[i], r.inFlight[..i], r.inFlight[i + 1..];
    var r' := Complete(r, i, result);
    assert q in r.inFlight;
    assert r.inFlight == a + ([q] + b);
    forall user, op ensures Outstanding(r', user, op) == Outstanding(r, user, op) {
      RequestedConcat(a, [q] + b, user, op);
      RequestedConcat([q], b, user, op);
      RequestedConcat(a, b, user, op);
      PostedAppend(r.cq, Cqe(q.userData, q.op, result), user, op);
    }
    forall k | 0 <= k < |r'.inFlight| ensures r'.inFlight[k] == r.inFlight[if k < i then k else k + 1] {}
    if CancelsAreOwn(r) {
      forall j | 0 <= j < |r'.sq| ensures CancelIsOwn(r', j) {
        assert CancelIsOwn(r, j);
      }
    }
  }

  /** A cancellation may be added once nothing but the operation `e.op` is outstanding for its target. */
  ghost predicate MayIssue(r: Ring, e: Sqe) {
    && (e.userData == ASYNC_CANCELLATION_USER_DATA <==> e.opcode.AsyncCancel?)
    && (e.opcode.AsyncCancel? ==> forall op :: Outstanding(r, e.opcode.target, op) > 0 ==> op == e.op)
  }

  lemma IssueKeeps(r: Ring, capacity: nat, e: Sqe)
    requires Tagged(r) && MayIssue(r, e)
    ensures Tagged(Issue(r, capacity, e))
    ensures forall user, op :: Outstanding(Issue(r, capacity, e), user, op)
                            == Outstanding(r, user, op) + Queued([e], user, op)
    ensures CancelsAreOwn(r) ==> CancelsAreOwn(Issue(r, capacity, e))
  {
    var m := if |r.sq| >= capacity then Submit(r) else r;
    SubmitKeeps(r);
    var r' := Issue(r, capacity, e);
    forall user, op ensures Outstanding(r', user, op) == Outstanding(r, user, op) + Queued([e], user, op) {
      QueuedAppend(m.sq, e, user, op);
    }
    if CancelsAreOwn(r) {
      AppendKeepsCancels(m, e);
    }
  }

  lemma AppendKeepsCancels(r: Ring, e: Sqe)
    requires MayIssue(r, e) && CancelsAreOwn(r)
    ensures CancelsAreOwn(r.(sq := r.sq + [e]))
  {
    var r' := r.(sq := r.sq + [e]);
    forall i | 0 <= i < |r'.sq| ensures CancelIsOwn(r', i) {
      if i < |r.sq| {
        assert CancelIsOwn(r, i);
      } else if e.opcode.AsyncCancel? {
        forall j | 0 <= j < i && r'.sq[j].opcode.Operation? && r'.sq[j].userData == e.opcode.target
          ensures r'.sq[j].op == e.op
        {
          QueuedIsCounted(r.sq, j);
          assert Outstanding(r, e.opcode.target, r.sq[j].op) > 0;
        }
        forall k | 0 <= k < |r'.inFlight| && r'.inFlight[k].userData == e.opcode.target
          ensures r'.inFlight[k].op == e.op
        {
          RequestIsCounted(r.inFlight, k);
          assert Outstanding(r, e.opcode.target, r.inFlight[k].op) > 0;
        }
      }
    }
  }

  // ---------------------------------------------------------------------------------------------
  // Answers
  // ---------------------------------------------------------------------------------------------

  /** A posted completion carries the answer to its operation, and what is still to be done has no answer yet. */
  ghost predicate Answered(r: Ring) {
    && (forall c :: c in r.cq && IsResult(c) ==> c.op in r.answers && r.answers[c.op] == c.result)
    && (forall e :: e in r.sq && e.opcode.Operation? ==> e.op !in r.answers)
    && (forall q :: q in r.inFlight ==> q.op !in r.answers)
  }

  lemma AcceptKeepsAnswers(r: Ring)
    requires r.sq != [] && Tagged(r) && Answered(r)
    ensures Answered(Accept(r)) && Accept(r).answers == r.answers
  {
    var e, r' := r.sq[0], Accept(r);
    assert e in r.sq;
    forall q | q in r'.inFlight ensures q.op !in r'.answers {
      var k :| 0 <= k < |r'.inFlight| && r'.inFlight[k] == q;
      assert k < |r.inFlight| ==> q.op == r.inFlight[k].op && r.inFlight[k] in r.inFlight;
    }
  }

  lemma {:induction false} SubmitKeepsAnswers(r: Ring)
    requires Tagged(r) && Answered(r)
    ensures Answered(Submit(r)) && Submit(r).answers == r.answers
    decreases |r.sq|
  {
    if r.sq != [] {
      AcceptKeepsAnswers(r);
      AcceptKeeps(r);
      SubmitKeepsAnswers(Accept(r));
    }
  }

  lemma IssueKeepsAnswers(r: Ring, capacity: nat, e: Sqe)
    requires Tagged(r) && Answered(r) && (e.opcode.Operation? ==> e.op !in r.answers)
    ensures Answered(Issue(r, capacity, e)) && Issue(r, capacity, e).answers == r.answers
  {
    SubmitKeepsAnswers(r);
  }

  /** The queue never holds more than it has room for, so that there is always room for the next entry. */
  lemma IssueFits(r: Ring, capacity: nat, e: Sqe)
    requires 0 < capacity && |r.sq| <= capacity
    ensures 0 < |Issue(r, capacity, e).sq| <= capacity
  {}

  // ---------------------------------------------------------------------------------------------
  // Cancellations under way
  // ---------------------------------------------------------------------------------------------

  predicate IsOperation(e: Sqe, user: nat, op: nat) {
    e.opcode.Operation? && e.userData == user && e.op == op
  }

  /**
   The operation `op` of `user` is being cancelled: a cancellation for it is queued, behind it if it is
   still queued itself; or one has hit it in flight; or it has completed anyway.
   */
  ghost predicate CancelUnderWay(r: Ring, user: nat, op: nat) {
    || (exists i: nat :: CancelQueued(r.sq, i, user, op))
    || (exists q :: q in r.inFlight && q.userData == user && q.op == op && op in q.hits)
    || (exists c :: c in r.cq && IsResult(c) && c.userData == user && c.op == op)
  }

  ghost predicate CancelQueued(sq: seq<Sqe>, i: nat, user: nat, op: nat) {
    && i < |sq| && sq[i].opcode == AsyncCancel(user) && sq[i].op == op
    && forall j :: i < j < |sq| ==> !IsOperation(sq[j], user, op)
  }

  lemma {:induction false} NoneQueued(sq: seq<Sqe>, user: nat, op: nat)
    requires forall j :: 0 <= j < |sq| ==> !IsOperation(sq[j], user, op)
    ensures Queued(sq, user, op) == 0
  {
    if sq != [] {
      assert !IsOperation(sq[0], user, op);
      NoneQueued(sq[1..], user, op);
    }
  }

  lemma {:induction false} FindRequest(rs: seq<Request>, user: nat, op: nat) returns (k: nat)
    requires Requested(rs, user, op) > 0
    ensures k < |rs| && rs[k].userData == user && rs[k].op == op
  {
    if rs[0].userData == user && rs[0].op == op {
      k := 0;
    } else {
      k := FindRequest(rs[1..], user, op);
      k := k + 1;
    }
  }

  lemma {:induction false} FindPosted(cq: seq<Cqe>, user: nat, op: nat) returns (c: Cqe)
    requires Posted(cq, user, op) > 0
    ensures c in cq && IsResult(c) && c.userData == user && c.op == op
  {
    if IsResult(cq[0]) && cq[0].userData == user && cq[0].op == op {
      c := cq[0];
    } else {
      c := FindPosted(cq[1..], user, op);
    }
  }

  /** A cancellation whose turn comes finds its operation in flight, or completed. */
  lemma AcceptedCancelHits(r: Ring, user: nat, op: nat)
    requires r.sq != [] && CancelQueued(r.sq, 0, user, op) && Outstanding(r, user, op) > 0
    ensures CancelUnderWay(Accept(r), user, op)
  {
    NoneQueued(r.sq, user, op);
    var r' := Accept(r);
    if Requested(r.inFlight, user, op) > 0 {
      var k := FindRequest(r.inFlight, user, op);
      assert r'.inFlight[k] in r'.inFlight && op in r'.inFlight[k].hits;
    } else {
      var c := FindPosted(r.cq, user, op);
      assert c in r'.cq;
    }
  }

  lemma AcceptKeepsUnderWay(r: Ring, user: nat, op: nat)
    requires r.sq != [] && CancelUnderWay(r, user, op) && Outstanding(r, user, op) > 0
    ensures CancelUnderWay(Accept(r), user, op)
  {
    var r' := Accept(r);
    if i: nat :| CancelQueued(r.sq, i, user, op) {
      if i == 0 {
        AcceptedCancelHits(r, user, op);
      } else {
        assert forall j :: 0 <= j < |r'.sq| ==> r'.sq[j] == r.sq[j + 1];
        assert CancelQueued(r'.sq, i - 1, user, op);
      }
    } else if q :| q in r.inFlight && q.userData == user && q.op == op && op in q.hits {
      var k :| 0 <= k < |r.inFlight| && r.inFlight[k] == q;
      assert r'.inFlight[k] in r'.inFlight && op in r'.inFlight[k].hits;
    } else {
      var c :| c in r.cq && IsResult(c) && c.userData == user && c.op == op;
      assert c in r'.cq;
    }
  }

  lemma {:induction false} SubmitKeepsUnderWay(r: Ring, user: nat, op: nat)
    requires Tagged(r) && CancelUnderWay(r, user, op) && Outstanding(r, user, op) > 0
    ensures CancelUnderWay(Submit(r), user, op)
    decreases |r.sq|
  {
    if r.sq != [] {
      AcceptKeepsUnderWay(r, user, op);
      AcceptKeeps(r);
      SubmitKeepsUnderWay(Accept(r), user, op);
    }
  }

  lemma AppendKeepsUnderWay(r: Ring, e: Sqe, user: nat, op: nat)
    requires CancelUnderWay(r, user, op) && !IsOperation(e, user, op)
    ensures CancelUnderWay(r.(sq := r.sq + [e]), user, op)
  {
    if i: nat :| CancelQueued(r.sq, i, user, op) {
      assert CancelQueued(r.sq + [e], i, user, op);
    }
  }

  lemma IssueKeepsUnderWay(r: Ring, capacity: nat, e: Sqe, user: nat, op: nat)
    requires Tagged(r) && CancelUnderWay(r, user, op) && Outstanding(r, user, op) > 0 && !IsOperation(e, user, op)
    ensures CancelUnderWay(Issue(r, capacity, e), user, op)
  {
    SubmitKeepsUnderWay(r, user, op);
    AppendKeepsUnderWay(if |r.sq| >= capacity then Submit(r) else r, e, user, op);
  }

  lemma IssuePutsUnderWay(r: Ring, capacity: nat, user: nat, op: nat)
    ensures CancelUnderWay(Issue(r, capacity, Sqe(ASYNC_CANCELLATION_USER_DATA, AsyncCancel(user), op)), user, op)
  {
    var r' := Issue(r, capacity, Sqe(ASYNC_CANCELLATION_USER_DATA, AsyncCancel(user), op));
    assert CancelQueued(r'.sq, |r'.sq| - 1, user, op);
  }

  lemma CompleteKeepsUnderWay(r: Ring, i: nat, result: int, user: nat, op: nat)
    requires i < |r.inFlight| && Tagged(r) && CancelUnderWay(r, user, op)
    ensures CancelUnderWay(Complete(r, i, result), user, op)
  {
    var r' := Complete(r, i, result);
    if j: nat :| CancelQueued(r.sq, j, user, op) {
      assert CancelQueued(r'.sq, j, user, op);
    } else if q :| q in r.inFlight && q.userData == user && q.op == op && op in q.hits {
      var k :| 0 <= k < |r.inFlight| && r.inFlight[k] == q;
      if k == i {
        assert q in r.inFlight && Cqe(user, op, result) in r'.cq;
      } else {
        assert r'.inFlight[if k < i then k else k - 1] == q;
      }
    } else {
      var c :| c in r.cq && IsResult(c) && c.userData == user && c.op == op;
      assert c in r'.cq;
    }
  }

  // ---------------------------------------------------------------------------------------------
  // How much is left to do
  // ---------------------------------------------------------------------------------------------

  function Work(r: Ring): nat {
    |r.sq| + |r.inFlight| + |r.cq|
  }

  lemma {:induction false} SubmitKeepsWork(r: Ring)
    ensures Work(Submit(r)) == Work(r)
    decreases |r.sq|
  {
    if r.sq != [] {
      SubmitKeepsWork(Accept(r));
    }
  }

  lemma OutstandingIsSomewhere(r: Ring, user: nat, op: nat)
    requires Outstanding(r, user, op) > 0 && r.sq == []
    ensures HasWork(r)
  {}
}
