/**
 The runtime as the source writes it: a mutable `RuntimeState` whose methods update the slab, the ready queue
 and the stack pool in place. Every method is proved to do what the machine of module `FiberMachine` does,
 and its `assert`s stand where the source asserts or unwraps.
 */
module RuntimeStates {
  import opened Options
  import opened Fibers
  import opened FiberTree
  import opened FiberInvariant
  import opened FiberSteps
  import opened FiberRuns
  import opened FiberTheorems
  import opened FiberDeadlock
  import opened FiberCalls
  import opened FiberEffects
  import M = FiberMachine
  import K = Kernel
  import Syscall

  // ---------------------------------------------------------------------------------------------
  // Cancelling one more subtree
  // ---------------------------------------------------------------------------------------------

  lemma {:induction false} NewlyWokenConcat(fs: Slab, ready: seq<nat>, running: nat, a: seq<nat>, b: seq<nat>)
    requires forall f :: f in a + b ==> f in fs
    requires forall f :: f in a ==> f in fs
    requires forall f :: f in b ==> f in fs
    ensures M.NewlyWoken(fs, ready, running, a + b)
         == M.NewlyWoken(fs, ready, running, a) + M.NewlyWoken(fs, ready, running, b)
  {
    if a == [] {
      assert a + b == b;
    } else {
      assert (a + b)[1..] == a[1..] + b;
      NewlyWokenConcat(fs, ready, running, a[1..], b);
    }
  }

  lemma {:induction false} NewlyWokenFrame(fs: Slab, gs: Slab, ready: seq<nat>, ready': seq<nat>, running: nat,
                                           b: seq<nat>)
    requires forall f :: f in b ==>
      f in fs && f in gs && fs[f].isCancelled == gs[f].isCancelled && (f in ready <==> f in ready')
    ensures M.NewlyWoken(gs, ready', running, b) == M.NewlyWoken(fs, ready, running, b)
  {
    if b != [] {
      NewlyWokenFrame(fs, gs, ready, ready', running, b[1..]);
    }
  }

  /** Visiting `b` after `a`, on what visiting `a` has left, is visiting `a + b` when they have nothing in common. */
  lemma VisitAfterVisit(fs: Slab, ready: seq<nat>, running: nat, a: seq<nat>, b: seq<nat>)
    requires (forall f :: f in a ==> f in fs) && (forall f :: f in b ==> f in fs && f !in a)
    ensures var gs := M.WithCancelled(fs, a);
      var ready' := ready + M.NewlyWoken(fs, ready, running, a);
      && (forall f :: f in b ==> f in gs)
      && M.WithCancelled(gs, b) == M.WithCancelled(fs, a + b)
      && ready' + M.NewlyWoken(gs, ready', running, b) == ready + M.NewlyWoken(fs, ready, running, a + b)
  {
    QueueAfterQueue(fs, ready, running, a, b);
    FlagsAfterFlags(fs, a, b);
  }

  lemma QueueAfterQueue(fs: Slab, ready: seq<nat>, running: nat, a: seq<nat>, b: seq<nat>)
    requires (forall f :: f in a ==> f in fs) && (forall f :: f in b ==> f in fs && f !in a)
    ensures var gs := M.WithCancelled(fs, a);
      var ready' := ready + M.NewlyWoken(fs, ready, running, a);
      && (forall f :: f in b ==> f in gs)
      && ready' + M.NewlyWoken(gs, ready', running, b) == ready + M.NewlyWoken(fs, ready, running, a + b)
  {
    var gs, woken := M.WithCancelled(fs, a), M.NewlyWoken(fs, ready, running, a);
    assert forall f :: f in b ==> f !in woken by {
      NewlyWokenMembers(fs, ready, running, a);
    }
    assert forall f :: f in b ==> f in gs && gs[f] == fs[f] && (f in ready <==> f in ready + woken);
    NewlyWokenFrame(fs, gs, ready, ready + woken, running, b);
    NewlyWokenConcat(fs, ready, running, a, b);
    assert ready + woken + M.NewlyWoken(fs, ready, running, b) == ready + (woken + M.NewlyWoken(fs, ready, running, b));
  }

  lemma FlagsAfterFlags(fs: Slab, a: seq<nat>, b: seq<nat>)
    ensures M.WithCancelled(M.WithCancelled(fs, a), b) == M.WithCancelled(fs, a + b)
  {}

  /** What the loop over the children has visited before child `i`. */
  function Visited(fs: Slab, root: nat, i: nat): seq<nat>
    requires Shape(fs) && root in fs && i <= |Ascending(fs[root].children)|
  {
    var cs := Ascending(fs[root].children)[..i];
    assert forall c :: c in cs ==> c in fs[root].children;
    [root] + PreOrderAll(fs, fs[root].stamp, cs)
  }

  /** What cancelling leaves of the slab and the queue once `i` children of `root` are done. */
  ghost predicate CancelledUpTo(fs: Slab, ready: seq<nat>, running: nat, root: nat, i: nat, gs: Slab, ready': seq<nat>)
    requires Shape(fs) && root in fs && i <= |Ascending(fs[root].children)|
  {
    var visited := Visited(fs, root, i);
    && (forall f :: f in visited ==> f in fs)
    && gs == M.WithCancelled(fs, visited)
    && ready' == ready + M.NewlyWoken(fs, ready, running, visited)
  }

  lemma CancelledAll(fs: Slab, ready: seq<nat>, running: nat, root: nat, gs: Slab, ready': seq<nat>)
    requires Shape(fs) && root in fs
    requires CancelledUpTo(fs, ready, running, root, |Ascending(fs[root].children)|, gs, ready')
    ensures forall f :: f in PreOrder(fs, root) ==> f in fs
    ensures gs == M.WithCancelled(fs, PreOrder(fs, root))
    ensures ready' == ready + M.NewlyWoken(fs, ready, running, PreOrder(fs, root))
  {
    var cs := Ascending(fs[root].children);
    assert cs[..|cs|] == cs;
    assert Visited(fs, root, |cs|) == PreOrder(fs, root);
  }

  lemma VisitedGrows(fs: Slab, root: nat, i: nat)
    requires Shape(fs) && root in fs && i < |Ascending(fs[root].children)|
    ensures var c := Ascending(fs[root].children)[i];
      c in fs[root].children && Visited(fs, root, i + 1) == Visited(fs, root, i) + PreOrder(fs, c)
  {
    var cs := Ascending(fs[root].children);
    assert cs[i] in cs && cs[i] in fs[root].children;
    assert cs[..i + 1] == cs[..i] + [cs[i]];
    VisitedAppend(fs, root, cs[..i], cs[i]);
  }

  lemma VisitedAppend(fs: Slab, root: nat, done: seq<nat>, c: nat)
    requires Shape(fs) && root in fs && c in fs[root].children && forall d :: d in done ==> d in fs[root].children
    ensures PreOrderAll(fs, fs[root].stamp, done + [c]) == PreOrderAll(fs, fs[root].stamp, done) + PreOrder(fs, c)
  {
    PreOrderAllAppend(fs, fs[root].stamp, done, c);
  }

  lemma VisitedIsDisjoint(fs: Slab, root: nat, i: nat, f: nat)
    requires Tree(fs) && Shape(fs) && Unfinished(fs, root) && i < |Ascending(fs[root].children)|
    requires f in Visited(fs, root, i)
    ensures f in fs && Ascending(fs[root].children)[i] in fs && f !in PreOrder(fs, Ascending(fs[root].children)[i])
  {
    var cs := Ascending(fs[root].children);
    var c := cs[i];
    assert c in fs[root].children && Unfinished(fs, c);
    PreOrderSound(fs, c);
    ChildIsBelow(fs, c, root);
    if f != root {
      forall d | d in cs[..i] ensures d in fs[root].children && d != c {}
      PreOrderAllSound(fs, root, cs[..i]);
      var d :| d in cs[..i] && Unfinished(fs, f) && Below(fs, f, d);
      if f in PreOrder(fs, c) {
        SiblingsAreDisjoint(fs, root, c, d, f);
      }
    }
  }

  // ---------------------------------------------------------------------------------------------
  // Runs of the machine
  // ---------------------------------------------------------------------------------------------

  /** The actions are a timely run from `s` to `s'`. */
  ghost predicate IsRunTo(s: M.State, acts: seq<M.Action>, s': M.State) {
    TimelyRun(s, acts) && Run(s, acts) && After(s, acts) == s'
  }

  lemma {:induction false} Concatenate(s: M.State, a: seq<M.Action>, m: M.State, b: seq<M.Action>, s': M.State)
    requires IsRunTo(s, a, m) && IsRunTo(m, b, s')
    ensures IsRunTo(s, a + b, s') && Dispatches(a + b) == Dispatches(a) + Dispatches(b)
    decreases |a|
  {
    if a == [] {
      assert a + b == b;
    } else {
      Concatenate(M.Next(s, a[0]), a[1..], m, b, s');
      assert (a + b)[1..] == a[1..] + b;
    }
  }

  lemma Extend(s: M.State, acts: seq<M.Action>, m: M.State, a: M.Action)
    requires IsRunTo(s, acts, m) && M.Enabled(m, a) && M.Timely(m, a)
    ensures IsRunTo(s, acts + [a], M.Next(m, a))
    ensures Dispatches(acts + [a]) == Dispatches(acts) + (if a.Dispatch? then 1 else 0)
  {
    assert [a][1..] == [];
    assert TimelyRun(M.Next(m, a), []) && Run(M.Next(m, a), []) && Dispatches([a][1..]) == 0;
    Concatenate(s, acts, m, [a], M.Next(m, a));
  }

  ghost predicate InProcessIo(acts: seq<M.Action>) {
    forall a :: a in acts ==> a.Reap? || a.Dispatch? || a.Block? || a.KernelDone? || a.Unblock?
  }

  lemma ReapAndMoreIsRun(s: M.State, more: seq<M.Action>, s': M.State) returns (acts: seq<M.Action>)
    requires M.Enabled(s, M.Reap) && IsRunTo(M.Next(s, M.Reap), more, s') && InProcessIo(more)
    ensures IsRunTo(s, acts, s') && InProcessIo(acts) && Dispatches(acts) == Dispatches(more)
  {
    var m := M.Next(s, M.Reap);
    assert IsRunTo(s, [], s) && [] + [M.Reap] == [M.Reap];
    Extend(s, [], s, M.Reap);
    Concatenate(s, [M.Reap], m, more, s');
    acts := [M.Reap] + more;
  }

  lemma ReapAndDispatchIsRun(s: M.State) returns (acts: seq<M.Action>)
    requires M.Enabled(s, M.Reap) && M.Enabled(M.Next(s, M.Reap), M.Dispatch)
    ensures IsRunTo(s, acts, M.Next(M.Next(s, M.Reap), M.Dispatch)) && InProcessIo(acts) && Dispatches(acts) == 1
  {
    var m := M.Next(s, M.Reap);
    assert IsRunTo(m, [], m) && [] + [M.Dispatch] == [M.Dispatch];
    Extend(m, [], m, M.Dispatch);
    acts := ReapAndMoreIsRun(s, [M.Dispatch], M.Next(m, M.Dispatch));
  }

  /** Waiting is the machine's `Block`, at most one `KernelDone`, and `Unblock`, if there is something to wait for. */
  lemma WaitIsRun(s: M.State, request: nat, result: int) returns (acts: seq<M.Action>)
    requires Inv(s) && M.Enabled(s, M.Block) && K.HasWork(K.Submit(s.ring))
    ensures var s' := s.(ring := K.Wait(s.ring, request, result), mode := M.Polling);
      IsRunTo(s, acts, s') && Inv(s')
    ensures K.Work(K.Wait(s.ring, request, result)) == K.Work(s.ring)
    ensures InProcessIo(acts) && Dispatches(acts) == 0
  {
    hide Inv;
    K.SubmitKeepsWork(s.ring);
    BlockIsRun(s);
    var submitted := K.Submit(s.ring);
    var m := M.Next(s, M.Block);
    acts := [M.Block];
    if submitted.cq == [] {
      acts := AnswerIsRun(s, acts, m, K.Chosen(submitted, request), result);
      m := M.Next(m, M.KernelDone(K.Chosen(submitted, request), result));
    }
    acts := UnblockIsRun(s, acts, m);
  }

  /** With nothing to wait for, the machine is blocked, no action is possible any more, and some waits are cyclic. */
  lemma WaitIsForever(s: M.State)
    requires Inv(s) && M.Enabled(s, M.Block) && !K.HasWork(K.Submit(s.ring))
    ensures var s' := M.Next(s, M.Block);
      && s' == s.(ring := K.Submit(s.ring), mode := M.Blocked) && K.IsIdle(s'.ring)
      && forall a :: !M.Enabled(s', a)
    ensures HasCycle(s.fibers)
  {
    AcyclicExactly(s.fibers);
    if Acyclic(s.fibers) {
      AcyclicHasWork(s);
    }
  }

  lemma AcyclicHasWork(s: M.State)
    requires Inv(s) && M.Enabled(s, M.Block) && Acyclic(s.fibers)
    ensures K.HasWork(K.Submit(s.ring))
  {
    BlocksOnlyOnWork(s);
    var f, op :| Pending(s.fibers, f, op) && K.Outstanding(K.Submit(s.ring), f, op) == 1;
    K.OutstandingIsSomewhere(K.Submit(s.ring), f, op);
  }

  lemma BlockIsRun(s: M.State)
    requires Inv(s) && M.Enabled(s, M.Block)
    ensures IsRunTo(s, [M.Block], M.Next(s, M.Block)) && Inv(M.Next(s, M.Block))
    ensures InProcessIo([M.Block]) && Dispatches([M.Block]) == 0
  {
    BlockKeeps(s);
    assert IsRunTo(s, [], s) && [] + [M.Block] == [M.Block];
    Extend(s, [], s, M.Block);
  }

  lemma UnblockIsRun(s: M.State, acts: seq<M.Action>, m: M.State) returns (more: seq<M.Action>)
    requires IsRunTo(s, acts, m) && Inv(m) && M.Enabled(m, M.Unblock)
    requires InProcessIo(acts) && Dispatches(acts) == 0
    ensures IsRunTo(s, more, M.Next(m, M.Unblock)) && Inv(M.Next(m, M.Unblock))
    ensures InProcessIo(more) && Dispatches(more) == 0
  {
    UnblockKeeps(m);
    Extend(s, acts, m, M.Unblock);
    more := acts + [M.Unblock];
  }

  lemma AnswerIsRun(s: M.State, acts: seq<M.Action>, m: M.State, i: nat, result: int) returns (more: seq<M.Action>)
    requires IsRunTo(s, acts, m) && Inv(m) && M.Enabled(m, M.KernelDone(i, result))
    requires InProcessIo(acts) && Dispatches(acts) == 0
    ensures IsRunTo(s, more, M.Next(m, M.KernelDone(i, result))) && Inv(M.Next(m, M.KernelDone(i, result)))
    ensures InProcessIo(more) && Dispatches(more) == 0
  {
    KernelDoneKeeps(m, i, result);
    Extend(s, acts, m, M.KernelDone(i, result));
    more := acts + [M.KernelDone(i, result)];
  }

  /** What a handle that is held, or being joined by the running fiber, gives access to. */
  lemma HandleAccess(s: M.State, h: Handle)
    requires Inv(s) && (h in s.handles || JoinsOn(s.fibers, s.running, h))
    ensures h.slot in s.fibers && s.fibers[h.slot].stamp == h.stamp && ResultOk(s, h.slot)
  {}

  lemma RunningPark(s: M.State)
    requires Inv(s) && M.IsParkReturning(s)
    ensures ParkedOk(s, s.running) && FlagsOk(s.fibers[s.running])
    ensures forall h :: JoinsOn(s.fibers, s.running, h) && h.slot in s.fibers ==>
      (s.fibers[h.slot].continuation.Finished? ==> s.fibers[h.slot].isCompleted)
  {
    assert ParkedOk(s, s.running) && FlagsOk(s.fibers[s.running]);
    forall h | JoinsOn(s.fibers, s.running, h) && h.slot in s.fibers && s.fibers[h.slot].continuation.Finished?
      ensures s.fibers[h.slot].isCompleted
    {
      assert FlagsOk(s.fibers[h.slot]);
    }
  }

  lemma FinishedIsChildless(s: M.State, f: nat)
    requires Inv(s) && f in s.fibers
    ensures s.fibers[f].continuation.Finished? ==> s.fibers[f].children == {}
  {
    assert ParkedOk(s, f);
  }

  lemma RootIsThere(s: M.State)
    requires Inv(s)
    ensures Unfinished(s.fibers, 0)
  {}

  lemma ResultIsAnswer(s: M.State, op: nat)
    requires CallsOk(s) && OnCall(s.fibers, s.running, op) && s.fibers[s.running].syscallResult.Some?
    ensures op in s.ring.answers && s.ring.answers[op] == s.fibers[s.running].syscallResult.value
  {}

  lemma FinishFlags(s: M.State, outcome: Outcome)
    requires Inv(s) && Leaving(s)
    ensures if outcome.Panic? && s.running != 0 && !s.fibers[s.running].joinHandle.Waiting?
            then AllCancelled(s, M.Finish(s, outcome)) else SameFlags(s, M.Finish(s, outcome))
  {
    hide Inv, M.Finish, AllCancelled, SameFlags;
    if outcome.Panic? && s.running != 0 && !s.fibers[s.running].joinHandle.Waiting? {
      PanickedFinish(s);
    } else {
      QuietFinishSameFlags(s, outcome);
    }
  }

  /** What the caller of `join` sees: an outcome, an error, or nothing yet. */
  datatype JoinResult = Joined(outcome: Outcome) | Cancelled | Parked

  /** How a turn of the loop in `process_io` ends. */
  datatype Turning = Dispatched | Waited | Stuck

  class RuntimeState {
    const kernel: Syscall.Interface
    var fibers: Slab
    var readyFibers: seq<nat>
    var runningFiber: nat
    var stackPool: seq<nat>
    // the stacks themselves
    var mapped: nat
    var stacks: map<nat, M.Cell>
    // bookkeeping of the model
    var mode: M.Mode
    var handles: set<Handle>
    var clock: nat
    var returned: map<nat, Outcome>

    ghost function State(): M.State
      reads this, kernel
    {
      M.State(fibers, readyFibers, runningFiber, mode, stackPool, mapped, stacks,
              kernel.ring, kernel.capacity, handles, clock, returned)
    }

    /** `start`: a new runtime whose root fiber runs. */
    constructor (capacity: nat)
      requires capacity > 0
      ensures fresh(kernel) && kernel.capacity == capacity
      ensures State() == M.Start(capacity)
    {
      kernel := new Syscall.Interface(capacity);
      fibers, readyFibers, runningFiber, stackPool := map[], [], 0, [];
      mapped, stacks, mode, handles, clock, returned := 0, map[], M.Running, {}, 0, map[];
      new;
      CreateFiber(0, false);
    }

    method CreateFiber(slot: nat, isCancelled: bool)
      modifies this
      ensures State() == M.CreateFiber(old(State()), slot, isCancelled)
    {
      var stack;
      if stackPool != [] {
        stack := stackPool[|stackPool| - 1];
        stackPool := stackPool[..|stackPool| - 1];
      } else {
        stack := mapped;
        mapped := mapped + 1;
      }
      stacks := stacks[stack := M.Closure];
      fibers := fibers[slot := Fiber(stack, User, Unused, None, {}, None, false, isCancelled, clock, None)];
      clock := clock + 1;
    }

    /** `spawn`; the slab has chosen `slot`. */
    method Spawn(slot: nat) returns (handle: Handle)
      requires Inv(State()) && M.Enabled(State(), M.Spawn(slot))
      modifies this
      ensures State() == M.Next(old(State()), M.Spawn(slot)) && Inv(State())
      ensures handle in handles && handle.slot == slot && handle !in old(handles)
    {
      hide Inv;
      SpawnKeeps(State(), slot);
      if Handle(slot, clock) in handles {
        HandleAccess(State(), Handle(slot, clock));
      }
      handle := Handle(slot, clock);
      var isCancelled := fibers[runningFiber].isCancelled;
      CreateFiber(slot, isCancelled);
      readyFibers := readyFibers + [slot];
      fibers := fibers[runningFiber := fibers[runningFiber].(children := fibers[runningFiber].children + {slot})];
      fibers := fibers[slot := fibers[slot].(parent := Some(runningFiber))];
      handles := handles + {handle};
    }

    method ScheduleWith(f: nat)
      modifies this`readyFibers
      ensures readyFibers == Wake(old(readyFibers), f)
    {
      if f !in readyFibers {
        readyFibers := readyFibers + [f];
      }
    }

    /** `RuntimeState::cancel`: the recursion, flag by flag, is the closed form of the machine. */
    method Cancel(root: nat)
      requires Tree(fibers) && root in fibers
      requires fibers[root].continuation.Finished? ==> fibers[root].children == {}
      modifies this`fibers, this`readyFibers
      ensures Shape(old(fibers)) && forall f :: f in PreOrder(old(fibers), root) ==> f in old(fibers)
      ensures fibers == M.WithCancelled(old(fibers), PreOrder(old(fibers), root))
      ensures readyFibers == old(readyFibers)
        + M.NewlyWoken(old(fibers), old(readyFibers), runningFiber, PreOrder(old(fibers), root))
      decreases LaterThan(fibers, fibers[root].stamp)
    {
      ghost var fs, ready := fibers, readyFibers;
      TreeHasShape(fs);
      hide Tree, Shape, M.NewlyWoken, M.WithCancelled, PreOrder, CancelledUpTo;
      if !fibers[root].isCancelled && root != runningFiber {
        ScheduleWith(root);
      }
      fibers := fibers[root := fibers[root].(isCancelled := true)];
      var children := Ascending(fibers[root].children);
      var i := 0;
      CancelRoot(fs, ready, runningFiber, root);
      while i < |children|
        invariant 0 <= i <= |children| && children == Ascending(fs[root].children)
        invariant CancelledUpTo(fs, ready, runningFiber, root, i, fibers, readyFibers)
      {
        CancelChild(fs, fibers, ready, readyFibers, runningFiber, root, i);
        Cancel(children[i]);
        i := i + 1;
      }
      CancelledAll(fs, ready, runningFiber, root, fibers, readyFibers);
    }

    /** One of the three public cancellations: the fiber it names is there. */
    method CancelNamed(ghost a: M.Action, root: nat)
      requires Inv(State()) && M.Enabled(State(), a) && IsCancel(a) && root == Named(State(), a)
      modifies this`fibers, this`readyFibers
      ensures State() == M.Next(old(State()), a) && Inv(State()) && CancelsSubtree(old(State()), State(), root)
    {
      hide Inv, Tree, CancelsSubtree, M.Next, PreOrder, M.NewlyWoken, M.WithCancelled;
      CancelActionKeeps(State(), a);
      CancelsNamed(State(), a);
      NamedIsThere(State(), a);
      FinishedIsChildless(State(), root);
      Cancel(root);
    }

    /** `JoinHandle::cancel`. */
    method CancelHandle(h: Handle)
      requires Inv(State()) && M.Enabled(State(), M.CancelHandle(h))
      modifies this`fibers, this`readyFibers
      ensures State() == M.Next(old(State()), M.CancelHandle(h)) && Inv(State())
      ensures CancelsSubtree(old(State()), State(), h.slot)
    {
      CancelNamed(M.CancelHandle(h), h.slot);
    }

    /** `cancel`. */
    method CancelSelf()
      requires Inv(State()) && M.Enabled(State(), M.CancelSelf)
      modifies this`fibers, this`readyFibers
      ensures State() == M.Next(old(State()), M.CancelSelf) && Inv(State())
      ensures CancelsSubtree(old(State()), State(), runningFiber)
    {
      CancelNamed(M.CancelSelf, runningFiber);
    }

    /** `nearest_contained`: it is always the root. */
    function NearestContained(fiber: nat): nat {
      0
    }

    /** `cancel_propagating`, of a handle or of the caller. */
    method CancelPropagating(fiber: nat)
      requires Inv(State()) && M.Enabled(State(), M.CancelPropagating)
      modifies this`fibers, this`readyFibers
      ensures State() == M.Next(old(State()), M.CancelPropagating) && Inv(State())
      ensures CancelsSubtree(old(State()), State(), 0)
    {
      CancelNamed(M.CancelPropagating, NearestContained(fiber));
    }

    // -------------------------------------------------------------------------------------------
    // Join handles
    // -------------------------------------------------------------------------------------------

    /** `JoinHandle::drop`. */
    method DropHandle(h: Handle)
      requires h.slot in fibers
      modifies this`fibers, this`stackPool
      ensures State() == M.DropHandle(old(State()), h)
    {
      fibers := fibers[h.slot := fibers[h.slot].(joinHandle := Dropped, joiner := None)];
      if fibers[h.slot].isCompleted {
        var stack := fibers[h.slot].stack;
        stackPool := stackPool + [stack];
        fibers := fibers - {h.slot};
      }
      assert State().fibers == M.DropHandle(old(State()), h).fibers;
    }

    method Drop(h: Handle)
      requires Inv(State()) && M.Enabled(State(), M.Drop(h)) && M.Timely(State(), M.Drop(h))
      modifies this
      ensures State() == M.Next(old(State()), M.Drop(h)) && Inv(State())
    {
      hide Inv;
      DropKeeps(State(), h);
      HandleAccess(State(), h);
      handles := handles - {h};
      DropHandle(h);
    }

    /** `read_output`: what the target has written on its stack is what it returned. */
    method ReadOutput(h: Handle) returns (outcome: Outcome)
      requires h.slot in fibers && fibers[h.slot].isCompleted && ResultOk(State(), h.slot)
      ensures fibers[h.slot].stamp in returned && outcome == returned[fibers[h.slot].stamp]
    {
      var cell := stacks[fibers[h.slot].stack];
      outcome := cell.outcome;
    }

    /** Suspends the running fiber; `process_io` comes next. */
    method Park(point: Point)
      requires runningFiber in fibers
      modifies this`fibers, this`mode
      ensures State() == M.WithContinuation(old(State()), point).(mode := M.Polling)
    {
      fibers := fibers[runningFiber := fibers[runningFiber].(continuation := point)];
      mode := M.Polling;
    }

    /** `join`, up to its first park. */
    method Join(h: Handle) returns (result: JoinResult)
      requires Inv(State()) && M.Enabled(State(), M.Join(h)) && M.Timely(State(), M.Join(h))
      modifies this
      ensures State() == M.Next(old(State()), M.Join(h)) && Inv(State())
      ensures result.Joined? ==> h.stamp in returned && result.outcome == returned[h.stamp]
      ensures result.Joined? <==> old(fibers[h.slot].isCompleted)
      ensures result.Cancelled? <==>
        !old(fibers[h.slot].isCompleted) && old(fibers[runningFiber].isCancelled) && !old(fibers[h.slot].isCancelled)
      ensures result.Parked? <==> mode.Polling?
    {
      hide Inv;
      BeginJoinKeeps(State(), h);
      HandleAccess(State(), h);
      handles := handles - {h};
      if fibers[h.slot].isCompleted {
        var outcome := ReadOutput(h);
        DropHandle(h);
        return Joined(outcome);
      }
      if fibers[runningFiber].isCancelled && !fibers[h.slot].isCancelled {
        DropHandle(h);
        return Cancelled;
      }
      assert !fibers[h.slot].isCompleted;
      var target := fibers[h.slot].(joinHandle := Waiting(Some(runningFiber)), joiner := Some(runningFiber));
      fibers := fibers[h.slot := target];
      Park(Join1(h));
      return Parked;
    }

    /** `join`, from the return of its first park. */
    method ContinueJoin(h: Handle) returns (result: JoinResult)
      requires Inv(State()) && M.Enabled(State(), M.Resume) && M.Timely(State(), M.Resume)
      requires fibers[runningFiber].continuation == Join1(h)
      modifies this
      ensures State() == M.Next(old(State()), M.Resume) && Inv(State())
      ensures result.Joined? ==> h.stamp in returned && result.outcome == returned[h.stamp]
      ensures result.Joined? <==> old(fibers[h.slot].isCompleted)
      ensures result.Cancelled? <==> !old(fibers[h.slot].isCompleted) && !old(fibers[h.slot].isCancelled)
      ensures result.Parked? <==> mode.Polling?
    {
      hide Inv;
      ResumeKeeps(State());
      HandleAccess(State(), h);
      RunningPark(State());
      if fibers[h.slot].isCompleted {
        fibers := fibers[runningFiber := fibers[runningFiber].(continuation := User)];
        var outcome := ReadOutput(h);
        DropHandle(h);
        return Joined(outcome);
      }
      assert fibers[runningFiber].isCancelled;
      if !fibers[h.slot].isCancelled {
        fibers := fibers[runningFiber := fibers[runningFiber].(continuation := User)];
        DropHandle(h);
        return Cancelled;
      }
      Park(Join2(h));
      return Parked;
    }

    /** `join`, from the return of its second park: the result is read without a test. */
    method EndJoin(h: Handle) returns (outcome: Outcome)
      requires Inv(State()) && M.Enabled(State(), M.Resume) && fibers[runningFiber].continuation == Join2(h)
      modifies this
      ensures State() == M.Next(old(State()), M.Resume) && Inv(State())
      ensures h.stamp in returned && outcome == returned[h.stamp]
    {
      hide Inv;
      HandleAccess(State(), h);
      RunningPark(State());
      assert JoinsOn(fibers, runningFiber, h);
      ResumeKeeps(State());
      fibers := fibers[runningFiber := fibers[runningFiber].(continuation := User)];
      outcome := ReadOutput(h);
      DropHandle(h);
    }

    // -------------------------------------------------------------------------------------------
    // System calls
    // -------------------------------------------------------------------------------------------

    /** `syscall`, up to its first park. */
    method Syscall() returns (parked: bool)
      requires Inv(State()) && M.Enabled(State(), M.Syscall) && kernel.capacity > 0
      modifies this, kernel
      ensures State() == M.Next(old(State()), M.Syscall) && Inv(State())
      ensures parked <==> !old(fibers[runningFiber].isCancelled)
    {
      hide Numbered, Tree, QueueOk, FlagsOk, ParkedOk, ResultOk, HandlesOk, RingOk, StacksOk, CancelledBelow;
      SyscallKeeps(State());
      assert FlagsOk(fibers[runningFiber]);
      if fibers[runningFiber].isCancelled {
        return false;
      }
      assert fibers[runningFiber].syscallResult.None?;
      kernel.Issue(runningFiber, K.Operation, clock);
      Park(Syscall1(clock));
      clock := clock + 1;
      return true;
    }

    /** `read_syscall_result`: the `unwrap` succeeds when a result is there. */
    method ReadSyscallResult() returns (result: int)
      requires runningFiber in fibers && fibers[runningFiber].syscallResult.Some?
      modifies this`fibers
      ensures State() == M.TakeResult(old(State()))
      ensures Some(result) == old(fibers[runningFiber].syscallResult)
    {
      result := fibers[runningFiber].syscallResult.value;
      fibers := fibers[runningFiber := fibers[runningFiber].(syscallResult := None, continuation := User)];
    }

    /** `syscall`, from the return of its first park: the kernel's answer, or a cancellation passed on to the kernel. */
    method ContinueSyscall(op: nat) returns (result: Option<int>)
      requires Inv(State()) && CallsOk(State()) && M.Enabled(State(), M.Resume) && kernel.capacity > 0
      requires fibers[runningFiber].continuation == Syscall1(op)
      modifies this, kernel
      ensures State() == M.Next(old(State()), M.Resume) && Inv(State())
      ensures result == old(fibers[runningFiber].syscallResult) && CallsOk(State())
      ensures result.Some? ==> op in kernel.ring.answers && result.value == kernel.ring.answers[op]
      ensures result.None? ==> K.CancelUnderWay(kernel.ring, runningFiber, op)
    {
      hide Inv, CallsOk, K.CancelUnderWay;
      RunningPark(State());
      ResumeKeeps(State());
      ResumeKeepsCalls(State());
      if fibers[runningFiber].syscallResult.Some? {
        ResultIsAnswer(State(), op);
      }
      if fibers[runningFiber].syscallResult.Some? {
        var r := ReadSyscallResult();
        return Some(r);
      }
      assert fibers[runningFiber].isCancelled;
      kernel.Cancel(runningFiber, op);
      Park(Syscall2(op));
      return None;
    }

    /** `syscall`, from the return of its second park: the kernel's answer. */
    method EndSyscall(op: nat) returns (result: int)
      requires Inv(State()) && CallsOk(State()) && M.Enabled(State(), M.Resume)
      requires fibers[runningFiber].continuation == Syscall2(op)
      modifies this`fibers
      ensures State() == M.Next(old(State()), M.Resume) && Inv(State()) && CallsOk(State())
      ensures op in kernel.ring.answers && result == kernel.ring.answers[op]
    {
      hide Inv, CallsOk;
      RunningPark(State());
      ResumeKeeps(State());
      ResumeKeepsCalls(State());
      ResultIsAnswer(State(), op);
      result := ReadSyscallResult();
    }

    // -------------------------------------------------------------------------------------------
    // Trampolines
    // -------------------------------------------------------------------------------------------

    /** Leaving the parent, and giving up the slot if the handle is gone. */
    method Leave()
      requires runningFiber in fibers && fibers[runningFiber].parent.Some?
      requires fibers[runningFiber].parent.value in fibers
      modifies this
      ensures State() == M.Leave(old(State()))
    {
      ghost var before := State();
      var parent := fibers[runningFiber].parent.value;
      fibers := fibers[parent := fibers[parent].(children := fibers[parent].children - {runningFiber})];
      if fibers[parent].isCompleted && fibers[parent].children == {} {
        ScheduleWith(parent);
      }
      if fibers[runningFiber].joinHandle.Dropped? {
        var stack := fibers[runningFiber].stack;
        stackPool := stackPool + [stack];
        fibers := fibers - {runningFiber};
      } else {
        fibers := fibers[runningFiber := fibers[runningFiber].(continuation := Finished)];
      }
      mode := M.Polling;
    }

    /** `spawn_trampoline`, after the wait for children. */
    method FinishSpawned(outcome: Outcome)
      requires Tree(fibers) && Leaving(State()) && runningFiber != 0 && ParkedOk(State(), runningFiber)
      requires TargetOk(fibers, runningFiber) && Inv(State())
      modifies this
      ensures State() == M.Finish(old(State()), outcome)
      ensures if outcome.Panic? && !old(fibers[runningFiber].joinHandle.Waiting?)
              then AllCancelled(old(State()), State()) else SameFlags(old(State()), State())
    {
      hide Inv, AllCancelled, SameFlags, ParkedOk, M.Leave, M.NewlyWoken, Tree;
      ghost var before := State();
      FinishFlags(before, outcome);
      ghost var p := LeavingHasParent(before);
      TreeHasShape(fibers);
      RootIsThere(before);
      if fibers[runningFiber].joinHandle.Waiting? {
        assert fibers[runningFiber].joinHandle.waker.Some?;
        var waker := fibers[runningFiber].joinHandle.waker.value;
        fibers := fibers[runningFiber := fibers[runningFiber].(joinHandle := Waiting(None))];
        ScheduleWith(waker);
      } else if outcome.Panic? {
        Cancel(0);
        assert State() == M.CancelTree(before, 0);
      }
      Leave();
    }

    /** Both trampolines, after the wait for children. */
    method Finish(outcome: Outcome)
      requires Inv(State()) && Leaving(State())
      modifies this
      ensures State() == M.Finish(old(State()), outcome) && Inv(State())
      ensures if outcome.Panic? && old(runningFiber != 0 && !fibers[runningFiber].joinHandle.Waiting?)
              then AllCancelled(old(State()), State()) else SameFlags(old(State()), State())
    {
      FinishFlags(State(), outcome);
      hide AllCancelled, SameFlags;
      hide Numbered, Tree, QueueOk, FlagsOk, ParkedOk, ResultOk, RingOk, StacksOk, CancelledBelow;
      FinishKeeps(State(), outcome);
      if runningFiber == 0 {
        stackPool := stackPool + [fibers[runningFiber].stack];
        mode := M.Returned;
      } else {
        assert ParkedOk(State(), runningFiber) && TargetOk(fibers, runningFiber);
        FinishSpawned(outcome);
      }
    }

    method Complete(outcome: Outcome)
      requires runningFiber in fibers
      modifies this`fibers, this`stacks, this`returned
      ensures State() == M.Complete(old(State()), outcome)
    {
      var x := fibers[runningFiber];
      fibers := fibers[runningFiber :=
        x.(isCompleted := true, isCancelled := true, continuation := AwaitChildren(outcome))];
      stacks := stacks[x.stack := M.Output(outcome)];
      returned := returned[x.stamp := outcome];
    }

    /** The end of a closure: by value or by panic. */
    method Return(outcome: Outcome)
      requires Inv(State()) && M.Enabled(State(), M.Return(outcome))
      modifies this
      ensures State() == M.Next(old(State()), M.Return(outcome)) && Inv(State())
    {
      hide Inv;
      ReturnKeeps(State(), outcome);
      CompletedKeeps(State(), outcome);
      Complete(outcome);
      if fibers[runningFiber].children != {} {
        mode := M.Polling;
      } else {
        Finish(outcome);
      }
    }

    // -------------------------------------------------------------------------------------------
    // process_io
    // -------------------------------------------------------------------------------------------

    /** A completed operation is handed to its fiber; the slab access cannot miss. */
    method DeliverOne(c: K.Cqe, ghost rest: seq<K.Cqe>)
      requires mode.Polling? && kernel.ring.cq == [] && Inv(WithCompletions(State(), [c] + rest)) && K.IsResult(c)
      modifies this`fibers, this`readyFibers
      ensures M.DeliverAll(old(State()), [c] + rest) == M.DeliverAll(State(), rest)
      ensures Inv(WithCompletions(State(), rest)) && readyFibers != []
      ensures c.userData in fibers && fibers[c.userData].syscallResult == Some(c.result)
    {
      hide Numbered, Tree, QueueOk, FlagsOk, ParkedOk, ResultOk, HandlesOk, RingOk, StacksOk, CancelledBelow;
      ghost var s := State();
      DeliverKeeps(WithCompletions(s, [c] + rest));
      assert ([c] + rest)[1..] == rest;
      fibers := fibers[c.userData := fibers[c.userData].(syscallResult := Some(c.result))];
      ScheduleWith(c.userData);
      assert WithCompletions(State(), rest) == WithCompletions(M.Deliver(WithCompletions(s, [c] + rest), c), rest);
      assert State() == M.Deliver(s, c);
    }

    method Deliver(results: seq<K.Cqe>)
      requires mode.Polling? && kernel.ring.cq == [] && Inv(WithCompletions(State(), results))
      requires forall c :: c in results ==> K.IsResult(c)
      modifies this`fibers, this`readyFibers
      ensures State() == M.DeliverAll(old(State()), results) && Inv(State())
      ensures readyFibers == [] ==> results == []
    {
      hide Inv;
      ghost var s, rest := State(), results;
      var i := 0;
      while i < |results|
        invariant 0 <= i <= |results| && rest == results[i..]
        invariant Inv(WithCompletions(State(), rest)) && M.DeliverAll(State(), rest) == M.DeliverAll(s, results)
        invariant i > 0 ==> readyFibers != []
      {
        rest := results[i + 1..];
        assert results[i..] == [results[i]] + rest;
        DeliverOne(results[i], rest);
        i := i + 1;
      }
      assert WithCompletions(State(), rest) == State();
    }

    /** The top of the loop: applying the completions is the machine's `Reap`. */
    method Reap()
      requires Inv(State()) && mode.Polling?
      modifies this, kernel
      ensures State() == M.Next(old(State()), M.Reap) && Inv(State()) && mode.Polled?
      ensures readyFibers == [] ==> fibers == old(fibers)
      ensures kernel.ring == old(kernel.ring).(cq := [])
    {
      hide Inv;
      ReapKeeps(State());
      FilteringKeeps(State());
      ghost var s := State();
      var results := kernel.ProcessCompleted();
      assert WithCompletions(State(), results) == WithCompletions(s, results);
      Deliver(results);
      mode := M.Polled;
    }

    /** `process_io` takes the oldest ready fiber. */
    method TakeReady()
      requires Inv(State()) && mode.Polled? && readyFibers != []
      modifies this
      ensures State() == M.Next(old(State()), M.Dispatch) && Inv(State()) && mode.Running?
    {
      DispatchKeeps(State());
      assert readyFibers[0] in readyFibers;
      runningFiber := readyFibers[0];
      readyFibers := readyFibers[1..];
      mode := M.Running;
    }

    /** The end of the loop's body, with nobody ready. */
    method Wait(request: nat, result: int) returns (back: bool, ghost acts: seq<M.Action>)
      requires Inv(State()) && mode.Polled? && readyFibers == []
      modifies this, kernel
      ensures IsRunTo(old(State()), acts, State()) && Inv(State()) && InProcessIo(acts) && Dispatches(acts) == 0
      ensures fibers == old(fibers)
      ensures if back then mode.Polling? && kernel.ring.cq != [] && K.Work(kernel.ring) == K.Work(old(kernel.ring))
              else mode.Blocked? && (forall a :: !M.Enabled(State(), a)) && HasCycle(fibers)
    {
      hide Inv, M.Next, HasCycle;
      ghost var s := State();
      back := kernel.WaitForCompleted(request, result);
      if back {
        acts := WaitIsRun(s, request, result);
        mode := M.Polling;
      } else {
        WaitIsForever(s);
        BlockIsRun(s);
        acts := [M.Block];
        mode := M.Blocked;
      }
    }

    /** One turn of the loop in `process_io`: a fiber is dispatched, or the runtime has waited, or waits forever. */
    method Turn(request: nat, result: int) returns (r: Turning, ghost acts: seq<M.Action>)
      requires Inv(State()) && mode.Polling?
      modifies this, kernel
      ensures IsRunTo(old(State()), acts, State()) && Inv(State())
      ensures InProcessIo(acts) && Dispatches(acts) == (if r.Dispatched? then 1 else 0)
      ensures !r.Dispatched? ==> fibers == old(fibers)
      ensures match r
        case Dispatched => mode.Running?
        case Waited =>
          && mode.Polling? && kernel.ring.cq != []
          && K.Work(kernel.ring) == K.Work(old(kernel.ring)) - |old(kernel.ring).cq|
        case Stuck => mode.Blocked? && (forall a :: !M.Enabled(State(), a)) && HasCycle(fibers)
    {
      hide Inv, M.Next, HasCycle;
      ghost var s := State();
      Reap();
      if readyFibers != [] {
        acts := ReapAndDispatchIsRun(s);
        TakeReady();
        return Dispatched, acts;
      }
      ghost var more;
      var back;
      back, more := Wait(request, result);
      acts := ReapAndMoreIsRun(s, more, State());
      r := if back then Waited else Stuck;
    }

    /**
     `process_io`, where `answer(n)` is the kernel's choice in the `n`-th wait. It dispatches one fiber; or it waits
     forever, which it does only if some fibers wait for each other in a cycle. Either way it is a run of the machine.
     */
    method ProcessIo(answer: nat -> (nat, int)) returns (stuck: bool, ghost acts: seq<M.Action>)
      requires Inv(State()) && mode.Polling?
      modifies this, kernel
      ensures IsRunTo(old(State()), acts, State()) && Inv(State())
      ensures InProcessIo(acts) && Dispatches(acts) == (if stuck then 0 else 1)
      ensures !stuck ==> mode.Running?
      ensures stuck ==> mode.Blocked? && (forall a :: !M.Enabled(State(), a)) && HasCycle(old(fibers))
    {
      hide Inv;
      ghost var s := State();
      acts := [];
      var waits, r := 0, Waited;
      while r.Waited?
        invariant IsRunTo(s, acts, State()) && Inv(State())
        invariant InProcessIo(acts) && Dispatches(acts) == (if r.Dispatched? then 1 else 0)
        invariant !r.Dispatched? ==> fibers == s.fibers
        invariant match r
          case Dispatched => mode.Running?
          case Waited => mode.Polling?
          case Stuck => mode.Blocked? && (forall a :: !M.Enabled(State(), a)) && HasCycle(fibers)
        decreases r.Waited?, K.Work(kernel.ring), if kernel.ring.cq == [] then 1 else 0
      {
        ghost var m, more := State(), [];
        r, more := Turn(answer(waits).0, answer(waits).1);
        Concatenate(s, acts, m, more, State());
        acts := acts + more;
        waits := waits + 1;
      }
      stuck := r.Stuck?;
    }

    static lemma CancelRoot(fs: Slab, ready: seq<nat>, running: nat, root: nat)
      requires Shape(fs) && root in fs
      ensures CancelledUpTo(fs, ready, running, root, 0, fs[root := fs[root].(isCancelled := true)],
                            if !fs[root].isCancelled && root != running then Wake(ready, root) else ready)
    {
      assert Visited(fs, root, 0) == [root];
    }

    /** The call for child `i` brings the slab and the queue from what `i` children leave to what `i + 1` leave. */
    static lemma CancelChild(fs: Slab, gs: Slab, ready: seq<nat>, ready': seq<nat>, running: nat, root: nat, i: nat)
      requires Tree(fs) && Shape(fs) && root in fs && i < |Ascending(fs[root].children)|
      requires CancelledUpTo(fs, ready, running, root, i, gs, ready')
      ensures var c := Ascending(fs[root].children)[i];
        && Tree(gs) && Shape(gs) && Unfinished(gs, c)
        && LaterThan(gs, gs[c].stamp) < LaterThan(fs, fs[root].stamp)
        && (forall f :: f in PreOrder(gs, c) ==> f in gs)
        && CancelledUpTo(fs, ready, running, root, i + 1, M.WithCancelled(gs, PreOrder(gs, c)),
                         ready' + M.NewlyWoken(gs, ready', running, PreOrder(gs, c)))
    {
      var c, visited := Ascending(fs[root].children)[i], Visited(fs, root, i);
      assert c in fs[root].children;
      VisitedGrows(fs, root, i);
      assert Unfinished(fs, c);
      PreOrderSound(fs, c);
      forall f | f in visited ensures f !in PreOrder(fs, c) {
        VisitedIsDisjoint(fs, root, i, f);
      }
      TreeFrame(fs, gs);
      TreeHasShape(gs);
      PreOrderFrame(fs, gs, c);
      VisitAfterVisit(fs, ready, running, visited, PreOrder(fs, c));
      assert c in LaterThan(fs, fs[root].stamp) && c !in LaterThan(gs, gs[c].stamp);
    }
  }
}
