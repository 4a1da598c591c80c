/** Runs of the fiber machine, and what single steps do to the tree, the ready queue and the handles. */
module FiberRuns {
  import opened Options
  import opened Fibers
  import opened FiberTree
  import opened FiberMachine
  import opened FiberInvariant
  import opened FiberSteps
  import K = Kernel

  /** A run: the actions are enabled one after the other. */
  ghost predicate Run(s: State, acts: seq<Action>)
    decreases |acts|
  {
    acts == [] || (Enabled(s, acts[0]) && Run(Next(s, acts[0]), acts[1..]))
  }

  ghost function After(s: State, acts: seq<Action>): State
    requires Run(s, acts)
    decreases |acts|
  {
    if acts == [] then s else After(Next(s, acts[0]), acts[1..])
  }

  lemma {:induction false} RunExtends(s: State, acts: seq<Action>, a: Action)
    requires Run(s, acts) && Enabled(After(s, acts), a)
    ensures Run(s, acts + [a]) && After(s, acts + [a]) == Next(After(s, acts), a)
    decreases |acts|
  {
    if acts == [] {
      assert acts + [a] == [a] && [a][1..] == [];
    } else {
      RunExtends(Next(s, acts[0]), acts[1..], a);
      assert (acts + [a])[1..] == acts[1..] + [a];
    }
  }

  /** A run that consumes no handle of a fiber that has completed but still waits for children. */
  ghost predicate TimelyRun(s: State, acts: seq<Action>)
    decreases |acts|
  {
    acts == [] || (Enabled(s, acts[0]) && Timely(s, acts[0]) && TimelyRun(Next(s, acts[0]), acts[1..]))
  }

  lemma {:induction false} TimelyRunIsRun(s: State, acts: seq<Action>)
    requires TimelyRun(s, acts)
    ensures Run(s, acts)
    decreases |acts|
  {
    if acts != [] {
      TimelyRunIsRun(Next(s, acts[0]), acts[1..]);
    }
  }

  lemma {:induction false} RunKeeps(s: State, acts: seq<Action>)
    requires Inv(s) && TimelyRun(s, acts)
    ensures Run(s, acts) && Inv(After(s, acts))
    decreases |acts|
  {
    TimelyRunIsRun(s, acts);
    if acts != [] {
      StepKeeps(s, acts[0]);
      RunKeeps(Next(s, acts[0]), acts[1..]);
    }
  }

  // ---------------------------------------------------------------------------------------------
  // When a step keeps the invariant
  // ---------------------------------------------------------------------------------------------

  /** A slab that lost an unfinished fiber other than the root still lists it as a child. */
  lemma LostFiberBreaksTree(fs: Slab, gs: Slab, t: nat)
    requires Tree(fs) && Unfinished(fs, t) && t != 0 && gs.Keys == fs.Keys - {t}
    requires forall f :: f in gs ==> gs[f].children == fs[f].children
    ensures !Tree(gs)
  {
    assert Linked(fs, t);
    var p := fs[t].parent.value;
    assert t in gs[p].children;
  }

  lemma EarlyReleaseBreaks(s: State, h: Handle)
    requires Inv(s) && MayRelease(s, h) && h.slot in s.fibers
    requires s.fibers[h.slot].isCompleted && !s.fibers[h.slot].continuation.Finished?
    ensures !Inv(Release(s, h))
  {
    SoleReference(s, h);
    LostFiberBreaksTree(s.fibers, Release(s, h).fibers, h.slot);
  }

  /** A step from a good state leads to a good state if and only if it consumes no handle too early. */
  lemma StepKeepsExactly(s: State, a: Action)
    requires Inv(s) && Enabled(s, a)
    ensures Inv(Next(s, a)) <==> Timely(s, a)
  {
    if Timely(s, a) {
      StepKeeps(s, a);
    } else {
      match a {
        case Drop(h) =>
          StayingInUserCode(s.(handles := s.handles - {h}));
          EarlyReleaseBreaks(s, h);
        case Join(h) =>
          StayingInUserCode(s.(handles := s.handles - {h}));
          EarlyReleaseBreaks(s, h);
        case Resume =>
          assert ParkedOk(s, s.running);
          var h := s.fibers[s.running].continuation.target;
          assert JoinsOn(s.fibers, s.running, h);
          SoleReference(s, h);
          assert s.handles - {h} == s.handles;
          EarlyReleaseBreaks(s, h);
      }
    }
  }

  // ---------------------------------------------------------------------------------------------
  // What a step does to links, joins and handles
  // ---------------------------------------------------------------------------------------------

  function JoinTarget(p: Point): Option<Handle> {
    match p
    case Join1(h) => Some(h)
    case Join2(h) => Some(h)
    case _ => None
  }

  /** One fiber before and after a step. `runs`: it is the running fiber, and not the root. */
  ghost predicate FiberShape(x: Fiber, y: Fiber, a: Action, runs: bool, running: bool) {
    && y.parent == x.parent && y.stamp == x.stamp
    && (x.continuation.Finished? ==> y.continuation.Finished?)
    && (y.continuation.Finished? ==> x.continuation.Finished? || (runs && x.children == {}))
    && (JoinTarget(y.continuation) == None
        || JoinTarget(y.continuation) == JoinTarget(x.continuation)
        || (running && a.Join? && JoinTarget(y.continuation) == Some(a.handle)))
    && (y.joinHandle.Unused? ==> x.joinHandle.Unused?)
  }

  /**
   Parents and stamps never change and slots are filled by `Spawn` only; a fiber ceases to be unfinished only
   by running without children; joins begin in `Join` only; handles are used up visibly or forgotten.
   */
  ghost predicate StepShape(s: State, s': State, a: Action) {
    && (forall f :: f in s.fibers && f in s'.fibers ==>
          FiberShape(s.fibers[f], s'.fibers[f], a, f == s.running && f != 0, f == s.running))
    && (forall f :: f in s.fibers && f !in s'.fibers ==>
          s.fibers[f].continuation.Finished? || (f == s.running && f != 0 && s.fibers[f].children == {}))
    && (forall f :: f in s'.fibers && f !in s.fibers ==>
          a == Spawn(f) && s'.fibers[f].continuation.User? && Handle(f, s'.fibers[f].stamp) in s'.handles)
    && (forall h :: h in s.handles && h !in s'.handles ==>
          a == Forget(h) || h.slot !in s'.fibers || !s'.fibers[h.slot].joinHandle.Unused?)
  }

  lemma SpawnShape(s: State, slot: nat)
    requires Inv(s) && Enabled(s, Spawn(slot))
    ensures StepShape(s, Next(s, Spawn(slot)), Spawn(slot))
  {
    SpawnSpawns(s, slot);
    SpawnsShape(s, Next(s, Spawn(slot)), slot);
  }

  lemma SpawnsShape(s: State, s': State, c: nat)
    requires Spawns(s, s', c)
    ensures StepShape(s, s', Spawn(c))
  {}

  lemma ReleaseShape(s: State, h: Handle, a: Action)
    requires Inv(s) && MayRelease(s, h) && h.slot in s.fibers
    requires s.fibers[h.slot].isCompleted ==> s.fibers[h.slot].continuation.Finished?
    ensures StepShape(s, Release(s, h), a)
  {
    assert FlagsOk(s.fibers[s.running]) && FlagsOk(s.fibers[h.slot]) && ParkedOk(s, s.running);
    ReleaseFreesOrLetsGo(s, h);
    SoleReference(s, h);
    ReleasedShape(s, Release(s, h), h, a);
  }

  lemma ReleasedShape(s: State, s': State, h: Handle, a: Action)
    requires (LetsGo(s, s', h) || Frees(s, s', h)) && !s.fibers[s.running].continuation.Finished?
    ensures StepShape(s, s', a)
  {}

  lemma LeavesShape(s: State, s': State, p: nat, a: Action)
    requires LeavesFrom(s, s', p)
    ensures StepShape(s, s', a)
  {}

  ghost predicate SameForest(s: State, m: State) {
    && m.fibers.Keys == s.fibers.Keys && m.running == s.running && m.handles == s.handles
    && forall f :: f in s.fibers ==>
         && m.fibers[f].children == s.fibers[f].children
         && m.fibers[f].continuation.Finished? == s.fibers[f].continuation.Finished?
  }

  lemma CancelShape(s: State, root: nat, a: Action)
    requires Shape(s.fibers) && root in s.fibers
    ensures StepShape(s, CancelTree(s, root), a) && SameForest(s, CancelTree(s, root))
  {}

  /** Two steps in a row, where the first keeps every fiber, its children, and the running fiber. */
  lemma ShapesCompose(s: State, m: State, s': State, a: Action)
    requires StepShape(s, m, a) && StepShape(m, s', a)
    requires SameForest(s, m)
    ensures StepShape(s, s', a)
  {}

  lemma LeaveShape(s: State, a: Action)
    requires Tree(s.fibers) && Leaving(s) && ParkedOk(s, s.running) && s.running != 0
    requires s.fibers[s.running].joiner.None?
    ensures StepShape(s, Leave(s), a)
  {
    var p := LeavingHasParent(s);
    LeaveLeaves(s, p);
    LeavesShape(s, Leave(s), p, a);
  }

  lemma JoinedLeaveShape(s: State, outcome: Outcome, a: Action)
    requires Tree(s.fibers) && Leaving(s) && ParkedOk(s, s.running) && s.running != 0
    requires s.fibers[s.running].joiner.Some? && TargetOk(s.fibers, s.running)
    ensures StepShape(s, Finish(s, outcome), a)
  {
    var p := LeavingHasParent(s);
    JoinedLeaveLeaves(s, p, outcome);
    LeavesShape(s, Finish(s, outcome), p, a);
  }

  lemma PanicLeaveShape(s: State, c: State, a: Action)
    requires Inv(c) && Leaving(c) && c.running != 0 && c.fibers[c.running].joiner.None?
    requires StepShape(s, c, a) && SameForest(s, c)
    ensures StepShape(s, Leave(c), a)
  {
    assert ParkedOk(c, c.running);
    LeaveShape(c, a);
    ShapesCompose(s, c, Leave(c), a);
  }

  lemma FinishShape(s: State, outcome: Outcome, a: Action)
    requires Inv(s) && Leaving(s)
    ensures StepShape(s, Finish(s, outcome), a)
  {
    hide Numbered, Tree, QueueOk, FlagsOk, ParkedOk, ResultOk, RingOk, StacksOk, CancelledBelow;
    assert TargetOk(s.fibers, s.running) && ParkedOk(s, s.running);
    if s.running == 0 {
      FinishRootShape(s, outcome, a);
    } else if s.fibers[s.running].joiner.Some? {
      JoinedLeaveShape(s, outcome, a);
    } else if outcome.Panic? {
      CancelKeeps(s, 0);
      TreeHasShape(s.fibers);
      CancelShape(s, 0, a);
      PanicLeaveShape(s, CancelTree(s, 0), a);
    } else {
      LeaveShape(s, a);
    }
  }

  lemma FinishRootShape(s: State, outcome: Outcome, a: Action)
    requires Leaving(s) && s.running == 0
    ensures StepShape(s, Finish(s, outcome), a)
  {}

  lemma CompletedShape(s: State, outcome: Outcome, a: Action)
    requires s.running in s.fibers && s.fibers[s.running].continuation.User?
    ensures StepShape(s, Completed(s, outcome), a) && SameForest(s, Completed(s, outcome))
  {}

  lemma ReturnShape(s: State, outcome: Outcome)
    requires Inv(s) && Enabled(s, Return(outcome))
    ensures StepShape(s, Next(s, Return(outcome)), Return(outcome))
  {
    CompletedKeeps(s, outcome);
    CompletedShape(s, outcome, Return(outcome));
    if s.fibers[s.running].children == {} {
      FinishAfter(s, Completed(s, outcome), outcome, Return(outcome));
    }
  }

  lemma FinishAfter(s: State, c: State, outcome: Outcome, a: Action)
    requires Inv(c) && Leaving(c) && StepShape(s, c, a) && SameForest(s, c)
    ensures StepShape(s, Finish(c, outcome), a)
  {
    FinishShape(c, outcome, a);
    ShapesCompose(s, c, Finish(c, outcome), a);
  }

  /** Completions change nothing but results, and the ready queue at its end. */
  ghost predicate OnlyResults(s: State, d: State) {
    && d.fibers.Keys == s.fibers.Keys
    && (forall f :: f in s.fibers ==> d.fibers[f] == s.fibers[f].(syscallResult := d.fibers[f].syscallResult))
    && d.handles == s.handles && d.returned == s.returned && d.running == s.running && s.ready <= d.ready
  }

  lemma DeliverResult(s: State, c: K.Cqe)
    ensures OnlyResults(s, Deliver(s, c))
  {}

  lemma ResultsCompose(s: State, m: State, d: State)
    requires OnlyResults(s, m) && OnlyResults(m, d)
    ensures OnlyResults(s, d)
  {}

  lemma {:induction false} DeliverAllResults(s: State, cs: seq<K.Cqe>)
    ensures OnlyResults(s, DeliverAll(s, cs))
    decreases |cs|
  {
    if cs != [] && !s.mode.Faulted? {
      var m := Deliver(s, cs[0]);
      DeliverResult(s, cs[0]);
      DeliverAllResults(m, cs[1..]);
      hide Deliver;
      ResultsCompose(s, m, DeliverAll(m, cs[1..]));
    }
  }

  lemma ReapShape(s: State)
    requires Enabled(s, Reap)
    ensures StepShape(s, Next(s, Reap), Reap)
  {
    var e := s.(ring := s.ring.(cq := []));
    DeliverAllResults(e, K.OfOperations(s.ring.cq));
    ResultsShape(s, Next(s, Reap));
  }

  lemma ResultsShape(s: State, s': State)
    requires s'.fibers.Keys == s.fibers.Keys && s'.handles == s.handles
    requires forall f :: f in s.fibers ==> s'.fibers[f] == s.fibers[f].(syscallResult := s'.fibers[f].syscallResult)
    ensures StepShape(s, s', Reap)
  {}

  lemma TakeResultShape(s: State, a: Action)
    requires s.running in s.fibers && InSyscall(s.fibers[s.running].continuation)
    ensures StepShape(s, TakeResult(s), a)
  {}

  lemma SyscallShape(s: State, op: nat, a: Action)
    requires s.running in s.fibers && InSyscall(s.fibers[s.running].continuation)
    ensures StepShape(s, ContinueSyscall(s, op), a)
  {}

  lemma ParkAgainShape(s: State, h: Handle, a: Action)
    requires JoinsOn(s.fibers, s.running, h)
    ensures StepShape(s, WithContinuation(s, Join2(h)).(mode := Polling), a)
  {}

  lemma EndJoinShape(s: State, h: Handle)
    requires Inv(s) && Enabled(s, Resume) && JoinsOn(s.fibers, s.running, h) && h.slot in s.fibers
    requires s.fibers[h.slot].isCompleted ==> s.fibers[h.slot].continuation.Finished?
    ensures StepShape(s, DropHandle(WithContinuation(s, User), h), Resume)
  {
    SoleReference(s, h);
    assert s.handles - {h} == s.handles;
    ReleaseShape(s, h, Resume);
  }

  lemma ContinueJoinShape(s: State, h: Handle)
    requires Inv(s) && Enabled(s, Resume) && Timely(s, Resume) && s.fibers[s.running].continuation == Join1(h)
    ensures StepShape(s, ContinueJoin(s, h), Resume)
  {
    assert ParkedOk(s, s.running) && JoinsOn(s.fibers, s.running, h);
    if s.fibers[h.slot].isCompleted || !s.fibers[h.slot].isCancelled {
      EndJoinShape(s, h);
    } else {
      ParkAgainShape(s, h, Resume);
    }
  }

  lemma ResumeShape(s: State)
    requires Inv(s) && Enabled(s, Resume) && Timely(s, Resume)
    ensures StepShape(s, Next(s, Resume), Resume)
  {
    assert ParkedOk(s, s.running);
    match s.fibers[s.running].continuation {
      case Syscall1(op) => SyscallShape(s, op, Resume);
      case Syscall2(_) => TakeResultShape(s, Resume);
      case Join1(h) => ContinueJoinShape(s, h);
      case Join2(h) => EndJoinShape(s, h);
      case AwaitChildren(outcome) => FinishShape(s, outcome, Resume);
    }
  }

  lemma BeginJoinShape(s: State, h: Handle)
    requires Inv(s) && Enabled(s, Join(h)) && Timely(s, Join(h))
    ensures StepShape(s, Next(s, Join(h)), Join(h))
  {
    SoleReference(s, h);
    if s.fibers[h.slot].isCompleted || (s.fibers[s.running].isCancelled && !s.fibers[h.slot].isCancelled) {
      StayingInUserCode(s.(handles := s.handles - {h}));
      ReleaseShape(s, h, Join(h));
    } else {
      BeginJoinParks(s, h);
      ParksShape(s, BeginJoin(s, h), h);
    }
  }

  lemma ParksShape(s: State, s': State, h: Handle)
    requires Parks(s, s', h)
    ensures StepShape(s, s', Join(h))
  {}

  lemma CancelActionShape(s: State, a: Action)
    requires Inv(s) && Enabled(s, a) && (a.CancelHandle? || a.CancelSelf? || a.CancelPropagating?)
    ensures StepShape(s, Next(s, a), a)
  {
    TreeHasShape(s.fibers);
    match a {
      case CancelHandle(h) =>
        assert HandleOk(s.fibers, h);
        CancelShape(s, h.slot, a);
      case CancelSelf => CancelShape(s, s.running, a);
      case CancelPropagating => CancelShape(s, 0, a);
    }
  }

  lemma DropShape(s: State, h: Handle)
    requires Inv(s) && Enabled(s, Drop(h)) && Timely(s, Drop(h))
    ensures StepShape(s, Next(s, Drop(h)), Drop(h))
  {
    SoleReference(s, h);
    StayingInUserCode(s.(handles := s.handles - {h}));
    ReleaseShape(s, h, Drop(h));
  }

  lemma QuietShape(s: State, a: Action)
    requires Enabled(s, a)
    requires a.Forget? || a.Yield? || a.Dispatch? || a.Block? || a.Unblock? || a.KernelDone?
    ensures StepShape(s, Next(s, a), a)
  {}

  lemma BeginSyscallShape(s: State)
    requires Enabled(s, Syscall)
    ensures StepShape(s, Next(s, Syscall), Syscall)
  {}

  lemma StepHasShape(s: State, a: Action)
    requires Inv(s) && Enabled(s, a) && Timely(s, a)
    ensures StepShape(s, Next(s, a), a)
  {
    hide Numbered, Tree, QueueOk, FlagsOk, ParkedOk, ResultOk, HandlesOk, RingOk, StacksOk, CancelledBelow;
    match a {
      case Spawn(slot) => SpawnShape(s, slot);
      case Drop(h) => DropShape(s, h);
      case CancelHandle(h) => CancelActionShape(s, a);
      case CancelSelf => CancelActionShape(s, a);
      case CancelPropagating => CancelActionShape(s, a);
      case Join(h) => BeginJoinShape(s, h);
      case Return(outcome) => ReturnShape(s, outcome);
      case Resume => ResumeShape(s);
      case Reap => ReapShape(s);
      case Syscall => BeginSyscallShape(s);
      case _ => QuietShape(s, a);
    }
  }
}
