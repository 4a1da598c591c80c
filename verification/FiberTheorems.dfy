/** What holds in every run of the fiber runtime. */
module FiberTheorems {
  import opened Options
  import opened Fibers
  import opened FiberTree
  import opened FiberMachine
  import opened FiberInvariant
  import opened FiberSteps
  import opened FiberRuns
  import K = Kernel

  /** The state that a run of a fresh runtime leads to. */
  ghost predicate Reached(s: State, capacity: nat, acts: seq<Action>) {
    TimelyRun(Start(capacity), acts) && Run(Start(capacity), acts) && s == After(Start(capacity), acts)
  }

  lemma ReachedIsGood(s: State, capacity: nat, acts: seq<Action>)
    requires Reached(s, capacity, acts)
    ensures Inv(s)
  {
    StartIsGood(capacity);
    RunKeeps(Start(capacity), acts);
  }

  // ---------------------------------------------------------------------------------------------
  // Wakeups
  // ---------------------------------------------------------------------------------------------

  /** Something that is still to happen will put the parked fiber `f` in the ready queue. */
  ghost predicate HasWakeSource(s: State, f: nat)
    requires f in s.fibers
  {
    match s.fibers[f].continuation
    case Syscall1(op) => K.Outstanding(s.ring, f, op) == 1
    case Syscall2(op) => K.Outstanding(s.ring, f, op) == 1
    case Join1(h) => Unfinished(s.fibers, h.slot) && s.fibers[h.slot].joinHandle == Waiting(Some(f))
    case Join2(h) => Unfinished(s.fibers, h.slot) && s.fibers[h.slot].joinHandle == Waiting(Some(f))
    case AwaitChildren(_) => s.fibers[f].isCompleted && s.fibers[f].children != {}
    case _ => false
  }

  /**
   No lost wakeup: an unfinished fiber runs, is in the ready queue, or is parked with a live wake source;
   the queue holds unfinished fibers only, each once, and never the running one.
   */
  lemma NoLostWakeup(s: State, capacity: nat, acts: seq<Action>)
    requires Reached(s, capacity, acts)
    ensures forall f :: Unfinished(s.fibers, f) ==> Awake(s, f) || HasWakeSource(s, f)
    ensures forall f :: f in s.ready ==> Unfinished(s.fibers, f)
    ensures NoDuplicates(s.ready)
    ensures s.mode.Running? ==> Unfinished(s.fibers, s.running) && s.running !in s.ready
  {
    ReachedIsGood(s, capacity, acts);
    forall f | Unfinished(s.fibers, f) ensures Awake(s, f) || HasWakeSource(s, f) {
      ParkedHasSource(s, f);
    }
    forall f | f in s.fibers && Awake(s, f) ensures Unfinished(s.fibers, f) {
      assert ParkedOk(s, f);
    }
  }

  lemma ParkedHasSource(s: State, f: nat)
    requires Inv(s) && Unfinished(s.fibers, f)
    ensures Awake(s, f) || HasWakeSource(s, f)
  {
    assert ParkedOk(s, f) && FlagsOk(s.fibers[f]);
    match s.fibers[f].continuation {
      case Syscall1(op) =>
        if !Awake(s, f) {
          assert Pending(s.fibers, f, op);
        }
      case Syscall2(op) =>
        if !Awake(s, f) {
          assert Pending(s.fibers, f, op);
        }
      case Join1(h) => assert JoinsOn(s.fibers, f, h) && JoiningOk(s.fibers, f, h) && TargetOk(s.fibers, h.slot);
      case Join2(h) => assert JoinsOn(s.fibers, f, h) && JoiningOk(s.fibers, f, h) && TargetOk(s.fibers, h.slot);
      case _ =>
    }
  }

  /**
   No spurious wakeup: when a park returns, its reason is there. So none of the `assert!`s and `unwrap`s
   fails, and no access to the slab misses: the mode `Faulted` is unreachable.
   */
  lemma NoSpuriousWakeup(s: State, capacity: nat, acts: seq<Action>)
    requires Reached(s, capacity, acts)
    ensures !s.mode.Faulted?
    ensures Enabled(s, Resume) ==>
      var x := s.fibers[s.running];
      match x.continuation
      case Syscall1(_) => x.syscallResult.Some? || x.isCancelled
      case Syscall2(_) => x.syscallResult.Some?
      case Join1(h) => h.slot in s.fibers && s.fibers[h.slot].stamp == h.stamp
                       && (s.fibers[h.slot].continuation.Finished? || x.isCancelled)
      case Join2(h) => h.slot in s.fibers && s.fibers[h.slot].stamp == h.stamp
                       && s.fibers[h.slot].continuation.Finished?
      case AwaitChildren(_) => x.children == {}
  {
    ReachedIsGood(s, capacity, acts);
    if Enabled(s, Resume) {
      assert ParkedOk(s, s.running);
      match s.fibers[s.running].continuation {
        case Join1(h) => assert JoinsOn(s.fibers, s.running, h) && JoiningOk(s.fibers, s.running, h);
        case Join2(h) => assert JoinsOn(s.fibers, s.running, h) && JoiningOk(s.fibers, s.running, h);
        case _ =>
      }
    }
  }

  // ---------------------------------------------------------------------------------------------
  // Recycled slots and the kernel
  // ---------------------------------------------------------------------------------------------

  /**
   Although user data is only a recycled slot: every completion is for a live fiber that waits for
   exactly that operation, every cancellation that hit something hit its own operation, and one that
   is still queued will find its own operation or nothing.
   */
  lemma NoCrossGeneration(s: State, capacity: nat, acts: seq<Action>)
    requires Reached(s, capacity, acts)
    ensures forall c :: c in s.ring.cq && K.IsResult(c) ==> Pending(s.fibers, c.userData, c.op)
    ensures forall q :: q in s.ring.inFlight ==> Pending(s.fibers, q.userData, q.op) && q.hits <= {q.op}
    ensures forall i :: 0 <= i < |s.ring.sq| ==> K.CancelIsOwn(s.ring, i)
  {
    ReachedIsGood(s, capacity, acts);
    forall c | c in s.ring.cq && K.IsResult(c) ensures Pending(s.fibers, c.userData, c.op) {
      var i :| 0 <= i < |s.ring.cq| && s.ring.cq[i] == c;
      K.PostedIsCounted(s.ring.cq, i);
      assert K.Outstanding(s.ring, c.userData, c.op) > 0;
    }
    forall q | q in s.ring.inFlight ensures Pending(s.fibers, q.userData, q.op) && q.hits <= {q.op} {
      var i :| 0 <= i < |s.ring.inFlight| && s.ring.inFlight[i] == q;
      K.RequestIsCounted(s.ring.inFlight, i);
      assert K.Outstanding(s.ring, q.userData, q.op) > 0;
    }
  }

  // ---------------------------------------------------------------------------------------------
  // Structured concurrency
  // ---------------------------------------------------------------------------------------------

  /** The unfinished fibers form one tree below the root; its links agree in both directions. */
  lemma StructuredConcurrency(s: State, capacity: nat, acts: seq<Action>)
    requires Reached(s, capacity, acts)
    ensures Tree(s.fibers) && forall f :: Unfinished(s.fibers, f) ==> Below(s.fibers, f, 0)
    ensures s.mode.Returned? ==> forall f :: Unfinished(s.fibers, f) ==> f == 0
  {
    ReachedIsGood(s, capacity, acts);
    forall f | Unfinished(s.fibers, f) ensures Below(s.fibers, f, 0) && (s.mode.Returned? ==> f == 0) {
      EveryFiberIsBelowRoot(s.fibers, f);
      if s.mode.Returned? {
        assert ParkedOk(s, 0);
        OnlyRootBelowChildlessRoot(s.fibers, f);
      }
    }
  }

  lemma {:induction false} OnlyRootBelowChildlessRoot(fs: Slab, f: nat)
    requires Tree(fs) && fs[0].children == {} && Unfinished(fs, f)
    ensures f == 0
    decreases fs[f].stamp
  {
    assert Linked(fs, f);
    if f != 0 {
      OnlyRootBelowChildlessRoot(fs, fs[f].parent.value);
    }
  }

  /** A fiber finishes, or gives up its slot unfinished, only when it has no unfinished descendant. */
  lemma ParentsOutliveChildren(s: State, capacity: nat, acts: seq<Action>, a: Action, f: nat)
    requires Reached(s, capacity, acts) && Enabled(s, a) && Timely(s, a) && Unfinished(s.fibers, f)
    ensures Tree(s.fibers)
    ensures !Unfinished(Next(s, a).fibers, f) ==>
      forall g :: Unfinished(s.fibers, g) && Below(s.fibers, g, f) ==> g == f
  {
    ReachedIsGood(s, capacity, acts);
    StepHasShape(s, a);
    if !Unfinished(Next(s, a).fibers, f) {
      LeafLeaves(s, Next(s, a), a, f);
      forall g | Unfinished(s.fibers, g) && Below(s.fibers, g, f) ensures g == f {
        OnlyLeafBelowLeaf(s.fibers, g, f);
      }
    }
  }

  lemma LeafLeaves(s: State, s': State, a: Action, f: nat)
    requires StepShape(s, s', a) && Unfinished(s.fibers, f) && !Unfinished(s'.fibers, f)
    ensures s.fibers[f].children == {}
  {}

  lemma {:induction false} OnlyLeafBelowLeaf(fs: Slab, g: nat, f: nat)
    requires Tree(fs) && Unfinished(fs, f) && fs[f].children == {} && Unfinished(fs, g) && Below(fs, g, f)
    ensures g == f
    decreases fs[g].stamp
  {
    assert Linked(fs, g);
    if g != f {
      OnlyLeafBelowLeaf(fs, fs[g].parent.value, f);
    }
  }

  // ---------------------------------------------------------------------------------------------
  // Cancellation
  // ---------------------------------------------------------------------------------------------

  /**
   The effect of `cancel` on an unfinished fiber: exactly the subtree is flagged; the ready queue grows by the
   fibers of the subtree that were neither cancelled, nor running, nor queued, in the order of the visit;
   nothing else changes.
   */
  lemma CancelExactly(s: State, root: nat)
    requires Tree(s.fibers) && Unfinished(s.fibers, root)
    ensures var s' := CancelTree(s, root);
      && s'.fibers.Keys == s.fibers.Keys
      && (forall f :: f in s.fibers ==>
            && s'.fibers[f] == s.fibers[f].(isCancelled := s'.fibers[f].isCancelled)
            && (s'.fibers[f].isCancelled <==>
                  s.fibers[f].isCancelled || (Unfinished(s.fibers, f) && Below(s.fibers, f, root))))
      && s' == s.(fibers := s'.fibers, ready := s'.ready)
    ensures Shape(s.fibers)
    ensures var added := CancelTree(s, root).ready[|s.ready|..];
      && CancelTree(s, root).ready == s.ready + added
      && NoDuplicates(added)
      && (forall f :: f in added <==> Unfinished(s.fibers, f) && Below(s.fibers, f, root)
                                      && !s.fibers[f].isCancelled && f != s.running && f !in s.ready)
      && SubsequenceOf(added, PreOrder(s.fibers, root))
  {
    TreeHasShape(s.fibers);
    PreOrderIsSubtree(s.fibers, root);
    var visit := PreOrder(s.fibers, root);
    NewlyWokenMembers(s.fibers, s.ready, s.running, visit);
    NewlyWokenInOrder(s.fibers, s.ready, s.running, visit);
    assert CancelTree(s, root).ready[|s.ready|..] == NewlyWoken(s.fibers, s.ready, s.running, visit);
  }

  /** `a` arises from `b` by leaving out elements. */
  ghost predicate SubsequenceOf(a: seq<nat>, b: seq<nat>) {
    if a == [] then true
    else if b == [] then false
    else if a[0] == b[0] && SubsequenceOf(a[1..], b[1..]) then true
    else SubsequenceOf(a, b[1..])
  }

  lemma {:induction false} NewlyWokenInOrder(fs: Slab, ready: seq<nat>, running: nat, visit: seq<nat>)
    requires forall f :: f in visit ==> f in fs
    ensures SubsequenceOf(NewlyWoken(fs, ready, running, visit), visit)
  {
    if visit != [] {
      NewlyWokenInOrder(fs, ready, running, visit[1..]);
      var rest := NewlyWoken(fs, ready, running, visit[1..]);
      if NewlyWoken(fs, ready, running, visit) != rest {
        assert NewlyWoken(fs, ready, running, visit)[1..] == rest;
      }
    }
  }

  /** Below a fiber that is cancelled and has not completed all are cancelled, and cancelling it again does nothing. */
  lemma CancellationIsClosed(s: State, capacity: nat, acts: seq<Action>, f: nat)
    requires Reached(s, capacity, acts)
    requires Unfinished(s.fibers, f) && s.fibers[f].isCancelled && !s.fibers[f].isCompleted
    ensures Inv(s) && forall g :: Unfinished(s.fibers, g) && Below(s.fibers, g, f) ==> s.fibers[g].isCancelled
    ensures CancelTree(s, f) == s
  {
    ReachedIsGood(s, capacity, acts);
    CancelledAgain(s, f);
  }

  // ---------------------------------------------------------------------------------------------
  // Results and stacks
  // ---------------------------------------------------------------------------------------------

  /** The cell that `read_output` reads if the action ends in it, and the handle it belongs to. */
  function Reads(s: State, a: Action): Option<(Handle, Cell)> {
    if !s.mode.Running? || s.running !in s.fibers then None
    else
      var h := match a
        case Join(k) => Some(k)
        case Resume => JoinTarget(s.fibers[s.running].continuation)
        case _ => None;
      if h.Some? && h.value.slot in s.fibers && s.fibers[h.value.slot].isCompleted
         && s.fibers[h.value.slot].stack in s.stacks
      then Some((h.value, s.stacks[s.fibers[h.value.slot].stack]))
      else None
  }

  /** A join that yields an outcome yields what the very fiber its handle was made for has returned. */
  lemma JoinYieldsOwnOutcome(s: State, capacity: nat, acts: seq<Action>, a: Action)
    requires Reached(s, capacity, acts) && Enabled(s, a) && Reads(s, a).Some?
    ensures var (h, cell) := Reads(s, a).value;
      h.stamp in s.returned && cell == Output(s.returned[h.stamp])
  {
    ReachedIsGood(s, capacity, acts);
    var (h, _) := Reads(s, a).value;
    if a.Join? {
      assert HandleOk(s.fibers, h);
    } else {
      assert JoinsOn(s.fibers, s.running, h) && JoiningOk(s.fibers, s.running, h);
    }
    assert ResultOk(s, h.slot);
  }

  /** Before a join yields anything its target has completed, so there is always something to read. */
  lemma JoinHasResult(s: State, capacity: nat, acts: seq<Action>, h: Handle)
    requires Reached(s, capacity, acts) && Enabled(s, Resume) && s.fibers[s.running].continuation == Join2(h)
    ensures Reads(s, Resume).Some?
  {
    ReachedIsGood(s, capacity, acts);
    assert JoinsOn(s.fibers, s.running, h) && JoiningOk(s.fibers, s.running, h);
    assert ParkedOk(s, s.running) && FlagsOk(s.fibers[h.slot]) && ResultOk(s, h.slot);
  }

  /** When the root has returned, what `start` reads from its stack is what the root returned. */
  lemma StartYieldsRootOutcome(s: State, capacity: nat, acts: seq<Action>)
    requires Reached(s, capacity, acts) && s.mode.Returned?
    ensures 0 in s.fibers && s.running == 0 && s.fibers[0].stamp in s.returned && s.fibers[0].stack in s.stacks
    ensures s.stacks[s.fibers[0].stack] == Output(s.returned[s.fibers[0].stamp])
  {
    ReachedIsGood(s, capacity, acts);
    assert FlagsOk(s.fibers[0]) && ResultOk(s, 0);
  }

  lemma LeaveExtends(s: State)
    requires s.running in s.fibers
    ensures Leave(s).returned == s.returned && s.ready <= Leave(s).ready
  {}

  lemma FinishExtends(s: State, outcome: Outcome)
    requires s.running in s.fibers
    ensures Finish(s, outcome).returned == s.returned && s.ready <= Finish(s, outcome).ready
  {
    var x := s.fibers[s.running];
    if s.running != 0 {
      match x.joinHandle {
        case Waiting(None) =>
        case Waiting(Some(j)) =>
          LeaveExtends(s.(fibers := s.fibers[s.running := x.(joinHandle := Waiting(None))], ready := Wake(s.ready, j)));
        case _ =>
          var c := if outcome.Panic? then CancelTree(s, 0) else s;
          LeaveExtends(c);
      }
    }
  }

  lemma ResumeExtends(s: State)
    requires Enabled(s, Resume)
    ensures Next(s, Resume).returned == s.returned && s.ready <= Next(s, Resume).ready
  {
    if s.fibers[s.running].continuation.AwaitChildren? {
      FinishExtends(s, s.fibers[s.running].continuation.outcome);
    }
  }

  lemma ReturnExtends(s: State, outcome: Outcome)
    requires Enabled(s, Return(outcome))
    ensures Next(s, Return(outcome)).returned == s.returned[s.fibers[s.running].stamp := outcome]
    ensures s.ready <= Next(s, Return(outcome)).ready
  {
    FinishExtends(Complete(s, outcome), outcome);
  }

  lemma ReapExtends(s: State)
    requires Enabled(s, Reap)
    ensures Next(s, Reap).returned == s.returned && s.ready <= Next(s, Reap).ready
  {
    DeliverAllResults(s.(ring := s.ring.(cq := [])), K.OfOperations(s.ring.cq));
  }

  lemma OthersExtend(s: State, a: Action)
    requires Enabled(s, a) && !a.Resume? && !a.Return? && !a.Reap?
    ensures Next(s, a).returned == s.returned
    ensures if a.Dispatch? then s.ready[1..] == Next(s, a).ready else s.ready <= Next(s, a).ready
  {}

  lemma ReturnedIsPermanentStep(s: State, a: Action)
    requires Inv(s) && Enabled(s, a)
    ensures forall stamp :: stamp in s.returned ==>
      stamp in Next(s, a).returned && Next(s, a).returned[stamp] == s.returned[stamp]
  {
    hide Numbered, Tree, QueueOk, ParkedOk, HandlesOk, RingOk, StacksOk, CancelledBelow;
    match a {
      case Return(outcome) =>
        ReturnExtends(s, outcome);
        assert FlagsOk(s.fibers[s.running]) && ResultOk(s, s.running);
      case Reap => ReapExtends(s);
      case Resume => ResumeExtends(s);
      case _ => OthersExtend(s, a);
    }
  }

  /** What a fiber has returned never changes, however its slot is reused. */
  lemma {:induction false} ReturnedIsPermanent(s: State, acts: seq<Action>)
    requires Inv(s) && TimelyRun(s, acts)
    ensures Run(s, acts)
    ensures forall stamp :: stamp in s.returned ==>
      stamp in After(s, acts).returned && After(s, acts).returned[stamp] == s.returned[stamp]
    decreases |acts|
  {
    TimelyRunIsRun(s, acts);
    if acts != [] {
      StepKeeps(s, acts[0]);
      ReturnedIsPermanentStep(s, acts[0]);
      ReturnedIsPermanent(Next(s, acts[0]), acts[1..]);
    }
  }

  /** No stack has two owners, and none is lost: each is in the pool, once, or held by exactly one slot. */
  lemma StacksAreConserved(s: State, capacity: nat, acts: seq<Action>, k: nat)
    requires Reached(s, capacity, acts) && k < s.mapped
    ensures NoDuplicates(s.stackPool)
    ensures k in s.stackPool <==> !exists f :: Owns(s, f, k)
    ensures forall f, g :: Owns(s, f, k) && Owns(s, g, k) ==> f == g
  {
    ReachedIsGood(s, capacity, acts);
  }

  /** A slot other than the root's whose handle nobody has consumed has its handle in user code's hands. */
  ghost predicate NoneForgotten(s: State) {
    forall f :: f in s.fibers && f != 0 && s.fibers[f].joinHandle.Unused? ==> Handle(f, s.fibers[f].stamp) in s.handles
  }

  lemma NoneForgottenStep(s: State, s': State, a: Action)
    requires StepShape(s, s', a) && NoneForgotten(s) && !a.Forget?
    ensures NoneForgotten(s')
  {}

  lemma {:induction false} RunForgetsNone(s: State, acts: seq<Action>)
    requires Inv(s) && NoneForgotten(s) && TimelyRun(s, acts) && forall a :: a in acts ==> !a.Forget?
    ensures Run(s, acts) && NoneForgotten(After(s, acts))
    decreases |acts|
  {
    TimelyRunIsRun(s, acts);
    if acts != [] {
      StepKeeps(s, acts[0]);
      StepHasShape(s, acts[0]);
      NoneForgottenStep(s, Next(s, acts[0]), acts[0]);
      RunForgetsNone(Next(s, acts[0]), acts[1..]);
    }
  }

  lemma ConsumedSlotsAreFree(s: State, f: nat)
    requires s.mode.Returned? && QueueOk(s) && NoneForgotten(s) && s.handles == {}
    requires f in s.fibers && TargetOk(s.fibers, f) && forall g :: Unfinished(s.fibers, g) ==> g == 0
    ensures f == 0
  {
    assert Unfinished(s.fibers, f) ==> f == 0;
    if s.fibers[f].joiner.Some? {
      var j := s.fibers[f].joiner.value;
      assert JoinsOn(s.fibers, j, Handle(f, s.fibers[f].stamp));
      assert Unfinished(s.fibers, j);
    }
  }

  /** If every handle was joined or dropped, then all slots but the root's are free and all stacks pooled at the end. */
  lemma EverythingIsReturned(s: State, capacity: nat, acts: seq<Action>)
    requires Reached(s, capacity, acts) && s.mode.Returned?
    requires (forall a :: a in acts ==> !a.Forget?) && s.handles == {}
    ensures s.fibers.Keys == {0}
    ensures forall k: nat :: k < s.mapped <==> k in s.stackPool
  {
    ReachedIsGood(s, capacity, acts);
    StartIsGood(capacity);
    RunForgetsNone(Start(capacity), acts);
    StructuredConcurrency(s, capacity, acts);
    forall f | f in s.fibers ensures f == 0 {
      assert TargetOk(s.fibers, f);
      ConsumedSlotsAreFree(s, f);
    }
    forall k: nat | k < s.mapped ensures k in s.stackPool {
      assert forall f :: !Owns(s, f, k);
    }
  }

  // ---------------------------------------------------------------------------------------------
  // Dispatch order
  // ---------------------------------------------------------------------------------------------

  function Dispatches(acts: seq<Action>): nat {
    if acts == [] then 0 else (if acts[0].Dispatch? then 1 else 0) + Dispatches(acts[1..])
  }

  lemma ReadyGrowsAtTheBack(s: State, a: Action)
    requires Enabled(s, a)
    ensures if a.Dispatch? then s.ready[1..] == Next(s, a).ready else s.ready <= Next(s, a).ready
  {
    match a {
      case Return(outcome) => ReturnExtends(s, outcome);
      case Reap => ReapExtends(s);
      case Resume => ResumeExtends(s);
      case _ => OthersExtend(s, a);
    }
  }

  /**
   A fiber at position `k` of the ready queue moves up by one with each dispatch and by nothing else, so
   that after `n <= k` dispatches it is at position `k - n`, whatever happens in between; the next
   dispatch after `k` others is its own.
   */
  lemma {:induction false} FifoDispatch(s: State, acts: seq<Action>, k: nat)
    requires Run(s, acts) && k < |s.ready| && Dispatches(acts) <= k
    ensures var n := Dispatches(acts);
      k - n < |After(s, acts).ready| && After(s, acts).ready[k - n] == s.ready[k]
    ensures Dispatches(acts) == k && Enabled(After(s, acts), Dispatch) ==>
      Next(After(s, acts), Dispatch).running == s.ready[k]
    decreases |acts|
  {
    if acts != [] {
      ReadyGrowsAtTheBack(s, acts[0]);
      FifoDispatch(Next(s, acts[0]), acts[1..], if acts[0].Dispatch? then k - 1 else k);
    }
  }
}
