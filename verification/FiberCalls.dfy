/** System calls from end to end: a call yields what the kernel answered to it, and cancellations are passed on. */
module FiberCalls {
  import opened Options
  import opened Fibers
  import opened FiberTree
  import opened FiberMachine
  import opened FiberInvariant
  import opened FiberSteps
  import opened FiberRuns
  import opened FiberTheorems
  import opened Sequences
  import K = Kernel

  /** The fiber `f` is in `syscall` for the operation `op`. */
  ghost predicate OnCall(fs: Slab, f: nat, op: nat) {
    f in fs && (fs[f].continuation == Syscall1(op) || fs[f].continuation == Syscall2(op))
  }

  /** No two fibers are on the same operation, and operations are numbered by the clock. */
  ghost predicate CallsNumbered(s: State) {
    && (forall f: nat, g: nat, op: nat :: OnCall(s.fibers, f, op) && OnCall(s.fibers, g, op) ==> f == g)
    && (forall f: nat, op: nat :: OnCall(s.fibers, f, op) ==> op < s.clock)
    && (forall op :: op in s.ring.answers ==> op < s.clock)
  }

  /** A result that a fiber has received is the kernel's answer to the operation it is on. */
  ghost predicate ResultsAreAnswers(fs: Slab, ring: K.Ring) {
    forall f: nat, op: nat :: OnCall(fs, f, op) && fs[f].syscallResult.Some? ==>
      op in ring.answers && ring.answers[op] == fs[f].syscallResult.value
  }

  /** The fiber `f` has passed its cancellation on and still waits for the operation `op`. */
  ghost predicate AwaitsCancelled(fs: Slab, f: nat, op: nat) {
    f in fs && fs[f].continuation == Syscall2(op) && fs[f].syscallResult.None?
  }

  /** The cancellation of a fiber that waits in the second park of `syscall` is under way. */
  ghost predicate CancelsArePassedOn(fs: Slab, ring: K.Ring) {
    forall f: nat, op: nat :: AwaitsCancelled(fs, f, op) ==> K.CancelUnderWay(ring, f, op)
  }

  ghost predicate CallsOk(s: State) {
    && CallsNumbered(s)
    && K.Answered(s.ring)
    && ResultsAreAnswers(s.fibers, s.ring)
    && CancelsArePassedOn(s.fibers, s.ring)
    && (0 < s.capacity ==> |s.ring.sq| <= s.capacity)
  }

  // ---------------------------------------------------------------------------------------------
  // Steps that leave calls alone
  // ---------------------------------------------------------------------------------------------

  /** Nothing changes about fibers that are on a call, and the kernel is not involved. */
  ghost predicate SameCalls(s: State, s': State) {
    && s'.ring == s.ring && s'.capacity == s.capacity && s.clock <= s'.clock
    && forall f: nat, op: nat {:trigger OnCall(s'.fibers, f, op)} :: OnCall(s'.fibers, f, op) ==>
         && f in s.fibers && s'.fibers[f].continuation == s.fibers[f].continuation
         && s'.fibers[f].syscallResult == s.fibers[f].syscallResult
  }

  lemma SameCallsKeep(s: State, s': State)
    requires CallsOk(s) && SameCalls(s, s')
    ensures CallsOk(s')
  {
    forall f: nat, op: nat | OnCall(s'.fibers, f, op) ensures OnCall(s.fibers, f, op) {}
    forall f: nat, op: nat | AwaitsCancelled(s'.fibers, f, op)
      ensures K.CancelUnderWay(s'.ring, f, op)
    {
      assert OnCall(s'.fibers, f, op);
    }
  }

  lemma LeaveSameCalls(s: State)
    requires s.running in s.fibers
    ensures SameCalls(s, Leave(s))
  {}

  /** A change that leaves calls alone, and then another one. */
  lemma SameCallsCompose(s: State, m: State, s': State)
    requires SameCalls(s, m) && SameCalls(m, s')
    ensures SameCalls(s, s')
  {
    forall f: nat, op: nat | OnCall(s'.fibers, f, op) ensures OnCall(m.fibers, f, op) {}
  }

  lemma FinishSameCalls(s: State, outcome: Outcome)
    requires s.running in s.fibers
    ensures SameCalls(s, Finish(s, outcome))
  {
    hide Leave;
    var x := s.fibers[s.running];
    if s.running != 0 && x.joinHandle != Waiting(None) {
      var m :=
        if x.joinHandle.Waiting? then
          s.(fibers := s.fibers[s.running := x.(joinHandle := Waiting(None))],
             ready := Wake(s.ready, x.joinHandle.waker.value))
        else if outcome.Panic? then CancelTree(s, 0) else s;
      assert SameCalls(s, m);
      LeaveSameCalls(m);
      SameCallsCompose(s, m, Leave(m));
    }
  }

  lemma ReturnSameCalls(s: State, outcome: Outcome)
    requires Enabled(s, Return(outcome))
    ensures SameCalls(s, Next(s, Return(outcome)))
  {
    FinishSameCalls(Complete(s, outcome), outcome);
    SameCallsCompose(s, Complete(s, outcome), Finish(Complete(s, outcome), outcome));
  }

  lemma DropSameCalls(s: State, h: Handle)
    ensures SameCalls(s, DropHandle(s, h))
  {}

  lemma JoinSameCalls(s: State, a: Action)
    requires Enabled(s, a) && (a.Drop? || a.Join? || a.Resume?)
    requires a.Resume? ==> JoinTarget(s.fibers[s.running].continuation).Some?
    ensures SameCalls(s, Next(s, a))
  {
    if a.Resume? {
      DropSameCalls(WithContinuation(s, User), JoinTarget(s.fibers[s.running].continuation).value);
    } else {
      DropSameCalls(s.(handles := s.handles - {a.handle}), a.handle);
    }
    hide DropHandle;
  }

  lemma OthersSameCalls(s: State, a: Action)
    requires Enabled(s, a) && !a.Drop? && !a.Join? && !a.Return? && !a.Resume?
    requires !a.Syscall? && !a.Reap? && !a.Block? && !a.KernelDone?
    ensures SameCalls(s, Next(s, a))
  {}

  // ---------------------------------------------------------------------------------------------
  // Steps of system calls
  // ---------------------------------------------------------------------------------------------

  lemma SyscallKeepsCalls(s: State)
    requires Inv(s) && CallsOk(s) && Enabled(s, Syscall)
    ensures CallsOk(Next(s, Syscall))
  {
    var r := s.running;
    assert FlagsOk(s.fibers[r]);
    if s.fibers[r].isCancelled {
      SameCallsKeep(s, Next(s, Syscall));
    } else {
      IssuedCallKeepsCalls(s, Next(s, Syscall), K.Sqe(r, K.Operation, s.clock));
    }
  }

  /** What the running fiber does when it issues its operation. */
  lemma IssuedCallKeepsCalls(s: State, s': State, e: K.Sqe)
    requires RingOk(s) && CallsOk(s) && s.running in s.fibers && s.fibers[s.running].continuation.User?
    requires s.fibers[s.running].syscallResult.None? && e == K.Sqe(s.running, K.Operation, s.clock)
    requires s.running != K.ASYNC_CANCELLATION_USER_DATA
    requires s' == WithContinuation(s, Syscall1(s.clock)).(
                     ring := K.Issue(s.ring, s.capacity, e), clock := s.clock + 1, mode := Polling)
    ensures CallsOk(s')
  {
    K.IssueKeepsAnswers(s.ring, s.capacity, e);
    if 0 < s.capacity {
      K.IssueFits(s.ring, s.capacity, e);
    }
    hide K.Issue, K.Answered, RingOk;
    forall f: nat, op: nat | OnCall(s'.fibers, f, op)
      ensures if f == s.running then op == s.clock else OnCall(s.fibers, f, op)
    {}
    forall f: nat, op: nat | AwaitsCancelled(s'.fibers, f, op)
      ensures K.CancelUnderWay(s'.ring, f, op)
    {
      UnderWayAfterIssue(s, e, f, op);
    }
  }

  lemma UnderWayAfterIssue(s: State, e: K.Sqe, f: nat, op: nat)
    requires RingOk(s) && CallsOk(s) && Pending(s.fibers, f, op) && s.fibers[f].continuation == Syscall2(op)
    requires !K.IsOperation(e, f, op)
    ensures K.CancelUnderWay(K.Issue(s.ring, s.capacity, e), f, op)
  {
    assert K.Outstanding(s.ring, f, op) == 1;
    K.IssueKeepsUnderWay(s.ring, s.capacity, e, f, op);
  }

  lemma TakeResultKeepsCalls(s: State)
    requires CallsOk(s) && s.running in s.fibers
    ensures CallsOk(TakeResult(s))
  {
    SameCallsKeep(s, TakeResult(s));
  }

  /** What the running fiber does when it passes its cancellation on. */
  lemma PassedOnKeepsCalls(s: State, s': State, op: nat)
    requires RingOk(s) && CallsOk(s) && OnCall(s.fibers, s.running, op) && s.fibers[s.running].continuation.Syscall1?
    requires var e := K.Sqe(K.ASYNC_CANCELLATION_USER_DATA, K.AsyncCancel(s.running), op);
      s' == WithContinuation(s, Syscall2(op)).(ring := K.Issue(s.ring, s.capacity, e), mode := Polling)
    ensures CallsOk(s')
  {
    var e := K.Sqe(K.ASYNC_CANCELLATION_USER_DATA, K.AsyncCancel(s.running), op);
    K.IssueKeepsAnswers(s.ring, s.capacity, e);
    if 0 < s.capacity {
      K.IssueFits(s.ring, s.capacity, e);
    }
    K.IssuePutsUnderWay(s.ring, s.capacity, s.running, op);
    hide K.Issue, K.Answered, RingOk;
    forall f: nat, o: nat | OnCall(s'.fibers, f, o) ensures OnCall(s.fibers, f, o) {
      assert OnCall(s.fibers, s.running, op);
    }
    forall f: nat, o: nat | AwaitsCancelled(s'.fibers, f, o)
      ensures K.CancelUnderWay(s'.ring, f, o)
    {
      if f != s.running {
        UnderWayAfterIssue(s, e, f, o);
      }
    }
  }

  lemma ContinueSyscallKeepsCalls(s: State, op: nat)
    requires RingOk(s) && CallsOk(s) && s.running in s.fibers && s.fibers[s.running].continuation == Syscall1(op)
    ensures CallsOk(ContinueSyscall(s, op))
  {
    hide K.Issue, RingOk, CallsOk;
    if s.fibers[s.running].syscallResult.Some? {
      TakeResultKeepsCalls(s);
    } else if !s.fibers[s.running].isCancelled {
      SameCallsKeep(s, ContinueSyscall(s, op));
    } else {
      PassedOnKeepsCalls(s, ContinueSyscall(s, op), op);
    }
  }

  lemma BlockKeepsCalls(s: State)
    requires RingOk(s) && CallsOk(s)
    ensures CallsOk(s.(ring := K.Submit(s.ring), mode := Blocked))
  {
    var s' := s.(ring := K.Submit(s.ring), mode := Blocked);
    K.SubmitKeepsAnswers(s.ring);
    hide K.Submit;
    forall f: nat, op: nat | AwaitsCancelled(s'.fibers, f, op)
      ensures K.CancelUnderWay(s'.ring, f, op)
    {
      assert Pending(s.fibers, f, op) && K.Outstanding(s.ring, f, op) == 1;
      K.SubmitKeepsUnderWay(s.ring, f, op);
    }
  }

  /** The operation of a request in flight is outstanding nowhere else, and its fiber has no result. */
  lemma AnswerIsNew(s: State, i: nat)
    requires RingOk(s) && CallsNumbered(s) && i < |s.ring.inFlight|
    ensures var q := s.ring.inFlight[i];
      && Pending(s.fibers, q.userData, q.op)
      && (forall f: nat :: OnCall(s.fibers, f, q.op) ==> f == q.userData)
      && (forall c :: c in s.ring.cq && K.IsResult(c) ==> c.op != q.op)
      && (forall e :: e in s.ring.sq && e.opcode.Operation? ==> e.op != q.op)
      && (forall k :: 0 <= k < |s.ring.inFlight| && k != i ==> s.ring.inFlight[k].op != q.op)
  {
    var r, q := s.ring, s.ring.inFlight[i];
    RequestIsPending(s, i);
    forall c | c in r.cq && K.IsResult(c) ensures c.op != q.op {
      var j :| 0 <= j < |r.cq| && r.cq[j] == c;
      K.PostedIsCounted(r.cq, j);
      K.RequestIsCounted(r.inFlight, i);
      if c.op == q.op {
        assert Pending(s.fibers, c.userData, c.op) by {
          assert K.Outstanding(r, c.userData, c.op) > 0;
        }
        assert OnCall(s.fibers, c.userData, q.op) && OnCall(s.fibers, q.userData, q.op);
      }
    }
    forall e | e in r.sq && e.opcode.Operation? ensures e.op != q.op {
      var j :| 0 <= j < |r.sq| && r.sq[j] == e;
      K.QueuedIsCounted(r.sq, j);
      K.RequestIsCounted(r.inFlight, i);
      if e.op == q.op {
        assert Pending(s.fibers, e.userData, e.op) by {
          assert K.Outstanding(r, e.userData, e.op) > 0;
        }
        assert OnCall(s.fibers, e.userData, q.op) && OnCall(s.fibers, q.userData, q.op);
      }
    }
    forall k | 0 <= k < |r.inFlight| && k != i ensures r.inFlight[k].op != q.op {
      RequestIsPending(s, k);
      if r.inFlight[k].op == q.op {
        assert OnCall(s.fibers, r.inFlight[k].userData, q.op) && OnCall(s.fibers, q.userData, q.op);
        assert K.Outstanding(r, q.userData, q.op) == 1;
        K.TwoRequestsCount(r.inFlight, if k < i then k else i, if k < i then i else k);
      }
    }
    assert OnCall(s.fibers, q.userData, q.op);
  }

  lemma RequestIsPending(s: State, i: nat)
    requires RingOk(s) && i < |s.ring.inFlight|
    ensures Pending(s.fibers, s.ring.inFlight[i].userData, s.ring.inFlight[i].op)
  {
    K.RequestIsCounted(s.ring.inFlight, i);
    assert K.Outstanding(s.ring, s.ring.inFlight[i].userData, s.ring.inFlight[i].op) > 0;
  }

  lemma KernelDoneKeepsAnswers(s: State, i: nat, result: int)
    requires RingOk(s) && CallsOk(s) && i < |s.ring.inFlight|
    ensures K.Answered(K.Complete(s.ring, i, result))
  {
    AnswerIsNew(s, i);
    var r, r' := s.ring, K.Complete(s.ring, i, result);
    forall q | q in r'.inFlight ensures q.op !in r'.answers {
      var k :| 0 <= k < |r'.inFlight| && r'.inFlight[k] == q;
      var j := if k < i then k else k + 1;
      assert r.inFlight[j] == q && q in r.inFlight;
    }
  }

  lemma KernelDoneKeepsCalls(s: State, i: nat, result: int)
    requires RingOk(s) && CallsOk(s) && i < |s.ring.inFlight|
    ensures CallsOk(s.(ring := K.Complete(s.ring, i, result)))
  {
    var s' := s.(ring := K.Complete(s.ring, i, result));
    KernelDoneKeepsAnswers(s, i, result);
    AnswerIsNew(s, i);
    hide RingOk;
    var q := s.ring.inFlight[i];
    assert OnCall(s.fibers, q.userData, q.op);
    forall f: nat, op: nat | AwaitsCancelled(s'.fibers, f, op)
      ensures K.CancelUnderWay(s'.ring, f, op)
    {
      assert K.Tagged(s.ring) by {
        TaggedRing(s);
      }
      K.CompleteKeepsUnderWay(s.ring, i, result, f, op);
    }
  }

  lemma TaggedRing(s: State)
    requires RingOk(s)
    ensures K.Tagged(s.ring)
  {}

  // ---------------------------------------------------------------------------------------------
  // Completions
  // ---------------------------------------------------------------------------------------------

  /** Of several completions, each fiber gets one that is for it, if there is any. */
  lemma {:induction false} DeliverAllDelivers(s: State, cs: seq<K.Cqe>)
    ensures var d := DeliverAll(s, cs);
      !d.mode.Faulted? ==>
        && (forall c :: c in cs ==> c.userData in d.fibers && d.fibers[c.userData].syscallResult.Some?)
        && (forall f :: f in d.fibers && f in s.fibers && d.fibers[f].syscallResult != s.fibers[f].syscallResult ==>
              exists c :: c in cs && c.userData == f && d.fibers[f].syscallResult == Some(c.result))
        && (forall f :: f in d.fibers && f in s.fibers && s.fibers[f].syscallResult.Some? ==>
              d.fibers[f].syscallResult.Some?)
    decreases |cs|
  {
    if cs != [] && !s.mode.Faulted? {
      var m, rest := Deliver(s, cs[0]), cs[1..];
      var d := DeliverAll(m, rest);
      DeliverAllDelivers(m, rest);
      DeliverAllResults(m, rest);
      if !d.mode.Faulted? {
        forall f | f in d.fibers && f in s.fibers && d.fibers[f].syscallResult != s.fibers[f].syscallResult
          ensures exists c :: c in cs && c.userData == f && d.fibers[f].syscallResult == Some(c.result)
        {
          if d.fibers[f].syscallResult == m.fibers[f].syscallResult {
            assert cs[0] in cs && cs[0].userData == f;
          } else {
            var c :| c in rest && c.userData == f && d.fibers[f].syscallResult == Some(c.result);
            assert c in cs;
          }
        }
      }
    }
  }

  /** What applying the completions `cs` comes to, for fibers that are on a call. */
  ghost predicate Reaps(s: State, s': State, cs: seq<K.Cqe>) {
    && s'.fibers.Keys == s.fibers.Keys && s'.ring == s.ring.(cq := []) && s'.clock == s.clock
    && s'.capacity == s.capacity
    && (forall f :: f in s.fibers ==> s'.fibers[f].continuation == s.fibers[f].continuation)
    && (forall c :: c in cs ==> c.userData in s'.fibers && s'.fibers[c.userData].syscallResult.Some?)
    && (forall f :: f in s.fibers && s'.fibers[f].syscallResult != s.fibers[f].syscallResult ==>
          exists c :: c in cs && c.userData == f && s'.fibers[f].syscallResult == Some(c.result))
    && (forall f :: f in s.fibers && s.fibers[f].syscallResult.Some? ==> s'.fibers[f].syscallResult.Some?)
  }

  lemma ReapReaps(s: State)
    requires Inv(s) && Enabled(s, Reap)
    ensures Reaps(s, Next(s, Reap), K.OfOperations(s.ring.cq))
  {
    hide Inv, DeliverAll;
    var e, cs := s.(ring := s.ring.(cq := [])), K.OfOperations(s.ring.cq);
    ReapKeeps(s);
    GoodIsNotFaulted(Next(s, Reap));
    DeliverAllResults(e, cs);
    DeliverAllDelivers(e, cs);
    ReapedRing(e, cs);
  }

  lemma GoodRing(s: State)
    requires Inv(s) && CallsOk(s)
    ensures RingOk(s) && K.Tagged(s.ring) && K.Answered(s.ring)
  {}

  lemma ReapKeepsCalls(s: State)
    requires Inv(s) && CallsOk(s) && Enabled(s, Reap)
    ensures CallsOk(Next(s, Reap))
  {
    ReapReaps(s);
    ReapedKeepsCalls(s, Next(s, Reap));
  }

  lemma ReapedKeepsCalls(s: State, s': State)
    requires RingOk(s) && CallsOk(s) && Reaps(s, s', K.OfOperations(s.ring.cq))
    ensures CallsOk(s')
  {
    hide RingOk;
    ReapedResults(s, s');
    forall f: nat, op: nat | OnCall(s'.fibers, f, op) ensures OnCall(s.fibers, f, op) {}
    forall f: nat, op: nat | AwaitsCancelled(s'.fibers, f, op)
      ensures K.CancelUnderWay(s'.ring, f, op)
    {
      UndeliveredIsUnderWay(s, f, op);
    }
  }

  lemma ReapedResults(s: State, s': State)
    requires RingOk(s) && CallsOk(s) && Reaps(s, s', K.OfOperations(s.ring.cq))
    ensures ResultsAreAnswers(s'.fibers, s'.ring)
  {
    hide RingOk;
    forall f: nat, op: nat | OnCall(s'.fibers, f, op) && s'.fibers[f].syscallResult.Some?
      ensures op in s'.ring.answers && s'.ring.answers[op] == s'.fibers[f].syscallResult.value
    {
      assert OnCall(s.fibers, f, op);
      if s'.fibers[f].syscallResult != s.fibers[f].syscallResult {
        var c :| c in K.OfOperations(s.ring.cq) && c.userData == f && s'.fibers[f].syscallResult == Some(c.result);
        CompletionIsAnswer(s, c, f, op);
      }
    }
  }

  lemma CompletionIsAnswer(s: State, c: K.Cqe, f: nat, op: nat)
    requires RingOk(s) && CallsOk(s) && c in K.OfOperations(s.ring.cq) && c.userData == f && OnCall(s.fibers, f, op)
    ensures op in s.ring.answers && s.ring.answers[op] == c.result
  {
    OfOperationsMembers(s.ring.cq, c);
    var j :| 0 <= j < |s.ring.cq| && s.ring.cq[j] == c;
    K.PostedIsCounted(s.ring.cq, j);
    assert K.Outstanding(s.ring, c.userData, c.op) > 0;
    assert Pending(s.fibers, c.userData, c.op);
  }

  lemma {:induction false} OfOperationsMembers(cq: seq<K.Cqe>, c: K.Cqe)
    ensures c in K.OfOperations(cq) <==> c in cq && K.IsResult(c)
  {
    if cq != [] {
      OfOperationsMembers(cq[1..], c);
    }
  }

  lemma UndeliveredIsUnderWay(s: State, f: nat, op: nat)
    requires CallsOk(s) && AwaitsCancelled(s.fibers, f, op)
    requires forall c :: c in K.OfOperations(s.ring.cq) ==> c.userData != f
    ensures K.CancelUnderWay(s.ring.(cq := []), f, op)
  {
    if c :| c in s.ring.cq && K.IsResult(c) && c.userData == f && c.op == op {
      OfOperationsMembers(s.ring.cq, c);
    }
    if i: nat :| K.CancelQueued(s.ring.sq, i, f, op) {
      assert K.CancelQueued(s.ring.(cq := []).sq, i, f, op);
    }
  }

  // ---------------------------------------------------------------------------------------------
  // All steps and all runs
  // ---------------------------------------------------------------------------------------------

  lemma ResumeKeepsCalls(s: State)
    requires Inv(s) && CallsOk(s) && Enabled(s, Resume)
    ensures CallsOk(Next(s, Resume))
  {
    var s' := Next(s, Resume);
    match s.fibers[s.running].continuation {
      case Syscall1(op) => ContinueSyscallKeepsCalls(s, op);
      case Syscall2(_) => TakeResultKeepsCalls(s);
      case AwaitChildren(outcome) =>
        FinishSameCalls(s, outcome);
        SameCallsKeep(s, s');
      case _ =>
        JoinSameCalls(s, Resume);
        SameCallsKeep(s, s');
    }
  }

  lemma StepKeepsCalls(s: State, a: Action)
    requires Inv(s) && CallsOk(s) && Enabled(s, a)
    ensures CallsOk(Next(s, a))
  {
    hide Inv, CallsOk;
    match a {
      case Syscall => SyscallKeepsCalls(s);
      case Reap => ReapKeepsCalls(s);
      case Block =>
        GoodRing(s);
        BlockKeepsCalls(s);
      case KernelDone(i, result) =>
        GoodRing(s);
        KernelDoneKeepsCalls(s, i, result);
      case Resume => ResumeKeepsCalls(s);
      case Return(outcome) =>
        ReturnSameCalls(s, outcome);
        SameCallsKeep(s, Next(s, a));
      case _ =>
        if a.Drop? || a.Join? {
          JoinSameCalls(s, a);
        } else {
          OthersSameCalls(s, a);
        }
        SameCallsKeep(s, Next(s, a));
    }
  }

  lemma {:induction false} RunKeepsCalls(s: State, acts: seq<Action>)
    requires Inv(s) && CallsOk(s) && TimelyRun(s, acts)
    ensures Run(s, acts) && CallsOk(After(s, acts))
    decreases |acts|
  {
    TimelyRunIsRun(s, acts);
    if acts != [] {
      StepKeeps(s, acts[0]);
      StepKeepsCalls(s, acts[0]);
      RunKeepsCalls(Next(s, acts[0]), acts[1..]);
    }
  }

  lemma ReachedCallsAreOk(s: State, capacity: nat, acts: seq<Action>)
    requires Reached(s, capacity, acts)
    ensures Inv(s) && CallsOk(s)
  {
    hide Inv, CallsOk;
    ReachedIsGood(s, capacity, acts);
    StartIsGood(capacity);
    StartCallsAreOk(capacity);
    RunKeepsCalls(Start(capacity), acts);
  }

  /** What the kernel answered in the course of a run, by the operation of the request it finished. */
  ghost function Answers(s: State, acts: seq<Action>): map<nat, int>
    requires Run(s, acts)
    decreases |acts|
  {
    if acts == [] then map[] else AnswerOf(s, acts[0]) + Answers(Next(s, acts[0]), acts[1..])
  }

  function AnswerOf(s: State, a: Action): map<nat, int>
    requires Enabled(s, a)
  {
    match a
    case KernelDone(i, result) => map[s.ring.inFlight[i].op := result]
    case _ => map[]
  }

  /** Nothing but the kernel answers. */
  lemma OthersAnswerNothing(s: State, a: Action)
    requires Inv(s) && CallsOk(s) && Enabled(s, a) && !a.KernelDone?
    ensures Next(s, a).ring.answers == s.ring.answers
  {
    hide Inv, CallsOk;
    GoodRing(s);
    match a {
      case Syscall =>
        if !s.fibers[s.running].isCancelled && s.fibers[s.running].syscallResult.None? {
          K.SubmitKeepsAnswers(s.ring);
        }
      case Reap => ReapedRing(s.(ring := s.ring.(cq := [])), K.OfOperations(s.ring.cq));
      case Block => K.SubmitKeepsAnswers(s.ring);
      case Return(outcome) => ReturnSameCalls(s, outcome);
      case Resume => ResumeAnswers(s);
      case _ =>
        if a.Drop? || a.Join? {
          JoinSameCalls(s, a);
        } else {
          OthersSameCalls(s, a);
        }
    }
  }

  /** An answer is given once. */
  lemma StepAnswers(s: State, a: Action)
    requires Inv(s) && CallsOk(s) && Enabled(s, a)
    ensures AnswerOf(s, a).Keys !! s.ring.answers.Keys
    ensures Next(s, a).ring.answers == s.ring.answers + AnswerOf(s, a)
  {
    if a.KernelDone? {
      GoodRing(s);
      hide Inv, CallsOk;
      assert s.ring.inFlight[a.i] in s.ring.inFlight;
    } else {
      OthersAnswerNothing(s, a);
      hide Inv, CallsOk, Next;
      assert s.ring.answers + map[] == s.ring.answers;
    }
  }

  lemma ResumeAnswers(s: State)
    requires Inv(s) && CallsOk(s) && Enabled(s, Resume)
    ensures Next(s, Resume).ring.answers == s.ring.answers
  {
    hide Inv, CallsOk;
    GoodRing(s);
    match s.fibers[s.running].continuation {
      case Syscall1(_) => K.SubmitKeepsAnswers(s.ring);
      case Syscall2(_) =>
      case AwaitChildren(outcome) => FinishSameCalls(s, outcome);
      case _ => JoinSameCalls(s, Resume);
    }
  }

  lemma {:induction false} RunAnswers(s: State, acts: seq<Action>)
    requires Inv(s) && CallsOk(s) && TimelyRun(s, acts)
    ensures Run(s, acts) && After(s, acts).ring.answers == s.ring.answers + Answers(s, acts)
    decreases |acts|
  {
    hide Inv, CallsOk;
    TimelyRunIsRun(s, acts);
    if acts != [] {
      StepKeeps(s, acts[0]);
      StepKeepsCalls(s, acts[0]);
      StepAnswers(s, acts[0]);
      hide Next, AnswerOf;
      RunAnswers(Next(s, acts[0]), acts[1..]);
      MapsAssociate(s.ring.answers, AnswerOf(s, acts[0]), Answers(Next(s, acts[0]), acts[1..]));
    } else {
      assert s.ring.answers + map[] == s.ring.answers;
    }
  }

  /**
   Result integrity of system calls: a call that yields a result yields what the kernel, in this run, has answered to
   the very operation that this call issued.
   */
  lemma SyscallYieldsItsAnswer(s: State, capacity: nat, acts: seq<Action>, op: nat)
    requires Reached(s, capacity, acts) && Enabled(s, Resume) && OnCall(s.fibers, s.running, op)
    ensures s.fibers[s.running].continuation.Syscall2? ==> s.fibers[s.running].syscallResult.Some?
    ensures s.fibers[s.running].syscallResult.Some? ==>
      var answers := Answers(Start(capacity), acts);
      op in answers && answers[op] == s.fibers[s.running].syscallResult.value
  {
    hide Inv;
    NoSpuriousWakeup(s, capacity, acts);
    ReachedCallsAreOk(s, capacity, acts);
    ReachedAnswers(s, capacity, acts);
  }

  lemma ReachedAnswers(s: State, capacity: nat, acts: seq<Action>)
    requires Reached(s, capacity, acts)
    ensures s.ring.answers == Answers(Start(capacity), acts)
  {
    StartIsGood(capacity);
    StartCallsAreOk(capacity);
    hide Inv, CallsOk;
    RunAnswers(Start(capacity), acts);
    assert map[] + Answers(Start(capacity), acts) == Answers(Start(capacity), acts);
  }

  lemma StartCallsAreOk(capacity: nat)
    ensures CallsOk(Start(capacity)) && Start(capacity).ring.answers == map[]
  {}

  /** Processing the completions hands each one's result to the fiber that it is for. */
  lemma CompletionsAreDelivered(s: State, capacity: nat, acts: seq<Action>, c: K.Cqe)
    requires Reached(s, capacity, acts) && Enabled(s, Reap) && c in s.ring.cq && K.IsResult(c)
    ensures var s' := Next(s, Reap);
      && OnCall(s'.fibers, c.userData, c.op) && s'.fibers[c.userData].syscallResult == Some(c.result)
  {
    ReachedCallsAreOk(s, capacity, acts);
    NoCrossGeneration(s, capacity, acts);
    ReapReaps(s);
    ReapKeepsCalls(s);
    OfOperationsMembers(s.ring.cq, c);
    var s' := Next(s, Reap);
    hide Inv, Next;
    assert OnCall(s'.fibers, c.userData, c.op);
  }

  /** The cancellation of a fiber in the second park of `syscall` is queued, or it has hit, or the call is over. */
  lemma CancellationsReachTheKernel(s: State, capacity: nat, acts: seq<Action>, f: nat, op: nat)
    requires Reached(s, capacity, acts) && Unfinished(s.fibers, f) && s.fibers[f].continuation == Syscall2(op)
    ensures s.fibers[f].syscallResult.None? ==> K.CancelUnderWay(s.ring, f, op)
  {
    ReachedCallsAreOk(s, capacity, acts);
  }

  /** The submission queue never holds more than it has room for, so pushing an entry never fails. */
  lemma SubmissionsFit(s: State, capacity: nat, acts: seq<Action>)
    requires Reached(s, capacity, acts) && 0 < capacity
    ensures |s.ring.sq| <= capacity
  {
    ReachedCallsAreOk(s, capacity, acts);
    CapacityStays(Start(capacity), acts);
  }

  lemma {:induction false} CapacityStays(s: State, acts: seq<Action>)
    requires Run(s, acts)
    ensures After(s, acts).capacity == s.capacity
    decreases |acts|
  {
    if acts != [] {
      StepKeepsCapacity(s, acts[0]);
      CapacityStays(Next(s, acts[0]), acts[1..]);
    }
  }

  lemma StepKeepsCapacity(s: State, a: Action)
    requires Enabled(s, a)
    ensures Next(s, a).capacity == s.capacity
  {
    match a {
      case Reap => ReapedRing(s.(ring := s.ring.(cq := [])), K.OfOperations(s.ring.cq));
      case Return(outcome) => ReturnSameCalls(s, outcome);
      case Resume =>
        match s.fibers[s.running].continuation {
          case AwaitChildren(outcome) => FinishSameCalls(s, outcome);
          case _ =>
        }
      case _ =>
    }
  }
}
