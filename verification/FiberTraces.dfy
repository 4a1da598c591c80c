/** Concrete runs of the fiber machine that show why its theorems carry the hypotheses they carry. */
module FiberTraces {
  import opened Options
  import opened Fibers
  import opened FiberMachine
  import opened FiberRuns
  import K = Kernel

  lemma Step(start: State, acts: seq<Action>, s: State, a: Action) returns (acts': seq<Action>, s': State)
    requires Run(start, acts) && After(start, acts) == s && Enabled(s, a)
    ensures Run(start, acts') && After(start, acts') == s'
    ensures acts' == acts + [a] && s' == Next(s, a)
  {
    RunExtends(start, acts, a);
    acts', s' := acts + [a], Next(s, a);
  }

  /** After a pass through `process_io` with nothing completed, the oldest ready fiber runs. */
  lemma Switch(start: State, acts: seq<Action>, s: State) returns (acts': seq<Action>, s': State)
    requires Run(start, acts) && After(start, acts) == s
    requires s.mode.Polling? && K.IsIdle(s.ring) && s.ready != [] && s.ready[0] in s.fibers
    ensures Run(start, acts') && After(start, acts') == s' && acts' == acts + [Reap, Dispatch]
    ensures s' == s.(ready := s.ready[1..], running := s.ready[0], mode := Running)
  {
    var m;
    acts', m := Step(start, acts, s, Reap);
    acts', s' := Step(start, acts', m, Dispatch);
  }

  /** The root runs; fiber 1 has completed and waits for its child, fiber 2, which is ready. */
  ghost predicate ParentWaits(s: State) {
    && s.mode.Running? && s.running == 0 && s.ready == [2] && K.IsIdle(s.ring)
    && s.fibers.Keys == {0, 1, 2} && Handle(1, 1) in s.handles
    && s.fibers[0].continuation.User?
    && s.fibers[1].isCompleted && s.fibers[1].continuation.AwaitChildren?
    && s.fibers[2].continuation.User? && s.fibers[2].children == {} && s.fibers[2].parent == Some(1)
    && s.fibers[2].joinHandle.Unused?
  }

  /** The root is ready; fiber 1, just spawned, runs. */
  ghost predicate ChildRuns(s: State) {
    && s.mode.Running? && s.running == 1 && s.ready == [0] && K.IsIdle(s.ring) && s.clock == 2
    && s.fibers.Keys == {0, 1} && s.handles == {Handle(1, 1)}
    && s.fibers[0].continuation.User?
    && s.fibers[1].continuation.User? && s.fibers[1].children == {} && !s.fibers[1].isCancelled
  }

  lemma ReachChildRuns(capacity: nat) returns (acts: seq<Action>, s: State)
    ensures acts == [Spawn(1), Yield, Reap, Dispatch]
    ensures Run(Start(capacity), acts) && After(Start(capacity), acts) == s && ChildRuns(s)
  {
    var start := Start(capacity);
    acts, s := [], start;
    acts, s := Step(start, acts, s, Spawn(1));
    acts, s := Step(start, acts, s, Yield);
    assert s.ready == [1, 0];
    acts, s := Switch(start, acts, s);
  }

  lemma ReachParentWaits(capacity: nat) returns (acts: seq<Action>, s: State)
    ensures acts == [Spawn(1), Yield, Reap, Dispatch, Spawn(2), Return(Success(0)), Reap, Dispatch]
    ensures Run(Start(capacity), acts) && After(Start(capacity), acts) == s && ParentWaits(s)
  {
    var start := Start(capacity);
    acts, s := ReachChildRuns(capacity);
    acts, s := Step(start, acts, s, Spawn(2));
    assert s.fibers[1].children == {2} && s.fibers[2].parent == Some(1);
    acts, s := Step(start, acts, s, Return(Success(0)));
    assert s.ready == [0, 2];
    acts, s := Switch(start, acts, s);
  }

  /** Fiber 2 runs; its parent's slot has been freed. */
  ghost predicate OrphanRuns(s: State) {
    && s.mode.Running? && s.running == 2 && s.fibers.Keys == {0, 2} && s.fibers[2].continuation.User?
    && s.fibers[2].children == {} && s.fibers[2].parent == Some(1) && s.fibers[2].joinHandle.Unused?
  }

  lemma ReachOrphanRuns(capacity: nat) returns (acts: seq<Action>, s: State)
    ensures acts == [Spawn(1), Yield, Reap, Dispatch, Spawn(2), Return(Success(0)), Reap, Dispatch,
                     Drop(Handle(1, 1)), Yield, Reap, Dispatch]
    ensures Run(Start(capacity), acts) && After(Start(capacity), acts) == s && OrphanRuns(s)
  {
    var start := Start(capacity);
    acts, s := ReachParentWaits(capacity);
    assert !Timely(s, Drop(Handle(1, 1)));
    acts, s := Step(start, acts, s, Drop(Handle(1, 1)));
    acts, s := Step(start, acts, s, Yield);
    acts, s := Switch(start, acts, s);
  }

  /**
   The root spawns a fiber that spawns another and returns; the root then drops the handle of the first, which
   has completed but waits for its child. The slot is freed under the waiting fiber, and the child's end misses it:
   without the run hypothesis the runtime panics.
   */
  lemma EarlyDropPanics(capacity: nat) returns (acts: seq<Action>)
    ensures acts == [Spawn(1), Yield, Reap, Dispatch, Spawn(2), Return(Success(0)), Reap, Dispatch,
                     Drop(Handle(1, 1)), Yield, Reap, Dispatch, Return(Success(0))]
    ensures Run(Start(capacity), acts) && After(Start(capacity), acts).mode.Faulted?
  {
    var s;
    acts, s := ReachOrphanRuns(capacity);
    acts, s := Step(Start(capacity), acts, s, Return(Success(0)));
  }

  /** The root is gone waiting; fiber 1 runs and its own handle is in user code's hands. */
  ghost predicate LoneChildRuns(s: State) {
    && s.mode.Running? && s.running == 1 && s.ready == [] && K.IsIdle(s.ring)
    && s.fibers.Keys == {0, 1} && Handle(1, 1) in s.handles
    && s.fibers[1].continuation.User? && !s.fibers[1].isCompleted && !s.fibers[1].isCancelled
  }

  lemma ReachLoneChildRuns(capacity: nat) returns (acts: seq<Action>, s: State)
    ensures acts == [Spawn(1), Return(Success(0)), Reap, Dispatch]
    ensures Run(Start(capacity), acts) && After(Start(capacity), acts) == s && LoneChildRuns(s)
  {
    var start := Start(capacity);
    acts, s := [], start;
    acts, s := Step(start, acts, s, Spawn(1));
    acts, s := Step(start, acts, s, Return(Success(0)));
    assert s.ready == [1];
    acts, s := Switch(start, acts, s);
  }

  lemma ReachSelfJoin(capacity: nat) returns (acts: seq<Action>, s: State)
    ensures acts == [Spawn(1), Return(Success(0)), Reap, Dispatch, Join(Handle(1, 1))]
    ensures Run(Start(capacity), acts) && After(Start(capacity), acts) == s
    ensures s.mode.Polling? && s.ready == [] && K.IsIdle(s.ring)
  {
    acts, s := ReachLoneChildRuns(capacity);
    acts, s := Step(Start(capacity), acts, s, Join(Handle(1, 1)));
  }

  /**
   A fiber that joins itself: the runtime blocks in `wait_for_completed` with nothing in the kernel's hands,
   and no action is possible any more. So deadlock freedom needs its hypothesis on joins.
   */
  lemma SelfJoinBlocksForever(capacity: nat) returns (acts: seq<Action>)
    ensures acts == [Spawn(1), Return(Success(0)), Reap, Dispatch, Join(Handle(1, 1)), Reap, Block]
    ensures Run(Start(capacity), acts) && After(Start(capacity), acts).mode.Blocked?
    ensures forall a :: !Enabled(After(Start(capacity), acts), a)
  {
    var s;
    acts, s := ReachSelfJoin(capacity);
    hide Start;
    acts, s := Step(Start(capacity), acts, s, Reap);
    acts, s := Step(Start(capacity), acts, s, Block);
  }
}
