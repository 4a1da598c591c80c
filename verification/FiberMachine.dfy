/**
 The fiber runtime as a small-step machine. Everything between two context switches is one step or a
 run of steps that nothing but the kernel can interleave. User code is the free choice among the
 user actions; every `unwrap`, `assert!` and slab access that would panic leads to the mode `Faulted`.
 */
module FiberMachine {
  import opened Options
  import opened Fibers
  import opened FiberTree
  import K = Kernel

  /**
   `Running`: the running fiber executes. `Polling`, `Polled`, `Blocked`: inside `process_io`, at the top
   of its loop, after the completions were applied, and in `wait_for_completed`. `Returned`: `start` is back.
   */
  datatype Mode = Running | Polling | Polled | Blocked | Returned | Faulted

  /** What the top of a stack holds. */
  datatype Cell = Closure | Output(outcome: Outcome)

  /**
   The runtime's state, the stacks (`mapped` counts those obtained from the operating system), and two
   pieces of bookkeeping: the handles in the hands of user code, and what each fiber, by its stamp, returned.
   */
  datatype State = State(
    fibers: Slab,
    ready: seq<nat>,
    running: nat,
    mode: Mode,
    stackPool: seq<nat>,
    mapped: nat,
    stacks: map<nat, Cell>,
    ring: K.Ring,
    capacity: nat,
    handles: set<Handle>,
    clock: nat,
    returned: map<nat, Outcome>)

  datatype Action =
    // user code of the running fiber
    | Spawn(slot: nat)
    | Drop(handle: Handle)
    | Forget(handle: Handle)
    | CancelHandle(handle: Handle)
    | CancelSelf
    | CancelPropagating
    | Yield
    | Syscall
    | Join(handle: Handle)
    | Return(outcome: Outcome)
    // the runtime: the running fiber's park returns, and the parts of `process_io`
    | Resume
    | Reap
    | Dispatch
    | Block
    | Unblock
    // the kernel
    | KernelDone(i: nat, result: int)

  function Fault(s: State): State {
    s.(mode := Faulted)
  }

  // ---------------------------------------------------------------------------------------------
  // Creating fibers
  // ---------------------------------------------------------------------------------------------

  /** `create_fiber`: the stack comes from the pool's end if there is one; the slab chose `slot`. */
  function CreateFiber(s: State, slot: nat, isCancelled: bool): State {
    var empty := s.stackPool == [];
    var stack := if empty then s.mapped else s.stackPool[|s.stackPool| - 1];
    s.(fibers := s.fibers[slot := Fiber(stack, User, Unused, None, {}, None, false, isCancelled, s.clock, None)],
       stackPool := if empty then [] else s.stackPool[..|s.stackPool| - 1],
       mapped := if empty then s.mapped + 1 else s.mapped,
       stacks := s.stacks[stack := Closure],
       clock := s.clock + 1)
  }

  /** `start`, up to the jump into the root fiber. */
  function Start(capacity: nat): State {
    CreateFiber(State(map[], [], 0, Running, [], 0, map[], K.EMPTY, capacity, {}, 0, map[]), 0, false)
  }

  function SpawnFiber(s: State, slot: nat): State
    requires s.running in s.fibers
  {
    var r := s.running;
    var c := CreateFiber(s, slot, s.fibers[r].isCancelled);
    var linked := c.fibers[r := c.fibers[r].(children := c.fibers[r].children + {slot})];
    c.(fibers := linked[slot := linked[slot].(parent := Some(r))],
       ready := s.ready + [slot],
       handles := s.handles + {Handle(slot, s.clock)})
  }

  // ---------------------------------------------------------------------------------------------
  // Cancelling
  // ---------------------------------------------------------------------------------------------

  /** The visited fibers that a cancellation puts in the ready queue, in the order of the visit. */
  function NewlyWoken(fs: Slab, ready: seq<nat>, running: nat, visit: seq<nat>): seq<nat>
    requires forall f :: f in visit ==> f in fs
  {
    if visit == [] then []
    else
      (if !fs[visit[0]].isCancelled && visit[0] != running && visit[0] !in ready then [visit[0]] else [])
      + NewlyWoken(fs, ready, running, visit[1..])
  }

  function WithCancelled(fs: Slab, visit: seq<nat>): (r: Slab) {
    map f | f in fs :: if f in visit then fs[f].(isCancelled := true) else fs[f]
  }

  lemma {:induction false} PreOrderInSlab(fs: Slab, f: nat)
    requires Shape(fs) && f in fs
    ensures forall g :: g in PreOrder(fs, f) ==> g in fs
    decreases LaterThan(fs, fs[f].stamp), 1, 0
  {
    PreOrderAllInSlab(fs, fs[f].stamp, Ascending(fs[f].children));
  }

  lemma {:induction false} PreOrderAllInSlab(fs: Slab, stamp: nat, cs: seq<nat>)
    requires Shape(fs) && forall c :: c in cs ==> c in fs && fs[c].stamp > stamp
    ensures forall g :: g in PreOrderAll(fs, stamp, cs) ==> g in fs
    decreases LaterThan(fs, stamp), 0, |cs|
  {
    if cs != [] {
      assert cs[0] in LaterThan(fs, stamp) && cs[0] !in LaterThan(fs, fs[cs[0]].stamp);
      PreOrderInSlab(fs, cs[0]);
      PreOrderAllInSlab(fs, stamp, cs[1..]);
    }
  }

  /** Cancelling the subtree of `root`, in closed form. A child missing from the slab is a panic. */
  ghost function CancelTree(s: State, root: nat): State {
    if root !in s.fibers || !Shape(s.fibers) then Fault(s)
    else
      PreOrderInSlab(s.fibers, root);
      var visit := PreOrder(s.fibers, root);
      s.(fibers := WithCancelled(s.fibers, visit),
         ready := s.ready + NewlyWoken(s.fibers, s.ready, s.running, visit))
  }

  // ---------------------------------------------------------------------------------------------
  // Completing
  // ---------------------------------------------------------------------------------------------

  /** The running fiber leaves its parent, gives up its slot if its handle is gone, and ends. */
  function Leave(s: State): State
    requires s.running in s.fibers
  {
    var r := s.running;
    if s.fibers[r].parent.None? || s.fibers[r].parent.value !in s.fibers then Fault(s)
    else
      var p := s.fibers[r].parent.value;
      var parent := s.fibers[p].(children := s.fibers[p].children - {r});
      var fs := s.fibers[p := parent];
      var ready := if parent.isCompleted && parent.children == {} then Wake(s.ready, p) else s.ready;
      if fs[r].joinHandle.Dropped? then
        s.(fibers := fs - {r}, ready := ready, stackPool := s.stackPool + [fs[r].stack], mode := Polling)
      else
        s.(fibers := fs[r := fs[r].(continuation := Finished)], ready := ready, mode := Polling)
  }

  /** Both trampolines, after the wait for children. */
  ghost function Finish(s: State, outcome: Outcome): State
    requires s.running in s.fibers
  {
    var r := s.running;
    var f := s.fibers[r];
    if r == 0 then s.(stackPool := s.stackPool + [f.stack], mode := Returned)
    else
      match f.joinHandle
      case Waiting(None) => Fault(s)
      case Waiting(Some(j)) =>
        Leave(s.(fibers := s.fibers[r := f.(joinHandle := Waiting(None))], ready := Wake(s.ready, j)))
      case _ =>
        var c := if outcome.Panic? then CancelTree(s, 0) else s;
        if c.mode.Faulted? then c else Leave(c)
  }

  /** The running fiber's closure is over: the outcome is stored and the flags are set. */
  function Complete(s: State, outcome: Outcome): State
    requires s.running in s.fibers
  {
    var f := s.fibers[s.running];
    s.(fibers := s.fibers[s.running :=
         f.(isCompleted := true, isCancelled := true, continuation := AwaitChildren(outcome))],
       stacks := s.stacks[f.stack := Output(outcome)],
       returned := s.returned[f.stamp := outcome])
  }

  ghost function ReturnFrom(s: State, outcome: Outcome): State
    requires s.running in s.fibers
  {
    var c := Complete(s, outcome);
    if c.fibers[s.running].children != {} then c.(mode := Polling) else Finish(c, outcome)
  }

  // ---------------------------------------------------------------------------------------------
  // Joining
  // ---------------------------------------------------------------------------------------------

  /** `JoinHandle::drop`. */
  function DropHandle(s: State, h: Handle): State {
    if h.slot !in s.fibers then Fault(s)
    else
      var t := s.fibers[h.slot].(joinHandle := Dropped, joiner := None);
      if t.isCompleted then s.(fibers := s.fibers - {h.slot}, stackPool := s.stackPool + [t.stack])
      else s.(fibers := s.fibers[h.slot := t])
  }

  function WithContinuation(s: State, p: Point): State
    requires s.running in s.fibers
  {
    s.(fibers := s.fibers[s.running := s.fibers[s.running].(continuation := p)])
  }

  /** `join`, up to its first park or its early return. */
  function BeginJoin(s: State, h: Handle): State
    requires s.running in s.fibers
  {
    var r := s.running;
    var u := s.(handles := s.handles - {h});
    if h.slot !in s.fibers then Fault(s)
    else if s.fibers[h.slot].isCompleted then DropHandle(u, h)
    else if s.fibers[r].isCancelled && !s.fibers[h.slot].isCancelled then DropHandle(u, h)
    else
      var w := u.(fibers := s.fibers[h.slot := s.fibers[h.slot].(joinHandle := Waiting(Some(r)), joiner := Some(r))]);
      WithContinuation(w, Join1(h)).(mode := Polling)
  }

  /** `join`, from the return of its first park. */
  function ContinueJoin(s: State, h: Handle): State
    requires s.running in s.fibers
  {
    var r := s.running;
    var back := WithContinuation(s, User);
    if h.slot !in s.fibers then Fault(s)
    else if s.fibers[h.slot].isCompleted then DropHandle(back, h)
    else if !s.fibers[r].isCancelled then Fault(s)
    else if !s.fibers[h.slot].isCancelled then DropHandle(back, h)
    else WithContinuation(s, Join2(h)).(mode := Polling)
  }

  // ---------------------------------------------------------------------------------------------
  // System calls
  // ---------------------------------------------------------------------------------------------

  /** `syscall`, up to its first park or its early return. */
  function BeginSyscall(s: State): State
    requires s.running in s.fibers
  {
    var r := s.running;
    if s.fibers[r].isCancelled then s
    else if s.fibers[r].syscallResult.Some? then Fault(s)
    else
      WithContinuation(s, Syscall1(s.clock))
        .(ring := K.Issue(s.ring, s.capacity, K.Sqe(r, K.Operation, s.clock)), clock := s.clock + 1, mode := Polling)
  }

  /** `read_syscall_result`. */
  function TakeResult(s: State): State
    requires s.running in s.fibers
  {
    if s.fibers[s.running].syscallResult.None? then Fault(s)
    else s.(fibers := s.fibers[s.running := s.fibers[s.running].(syscallResult := None, continuation := User)])
  }

  /** `syscall`, from the return of its first park. */
  function ContinueSyscall(s: State, op: nat): State
    requires s.running in s.fibers
  {
    var r := s.running;
    if s.fibers[r].syscallResult.Some? then TakeResult(s)
    else if !s.fibers[r].isCancelled then Fault(s)
    else
      WithContinuation(s, Syscall2(op))
        .(ring := K.Issue(s.ring, s.capacity, K.Sqe(K.ASYNC_CANCELLATION_USER_DATA, K.AsyncCancel(r), op)),
          mode := Polling)
  }

  // ---------------------------------------------------------------------------------------------
  // process_io
  // ---------------------------------------------------------------------------------------------

  /** One completed operation is handed to the fiber its user data names. */
  function Deliver(s: State, c: K.Cqe): State {
    if c.userData !in s.fibers then Fault(s)
    else
      s.(fibers := s.fibers[c.userData := s.fibers[c.userData].(syscallResult := Some(c.result))],
         ready := Wake(s.ready, c.userData))
  }

  function DeliverAll(s: State, cs: seq<K.Cqe>): State
    decreases |cs|
  {
    if cs == [] || s.mode.Faulted? then s else DeliverAll(Deliver(s, cs[0]), cs[1..])
  }

  function ReapCompleted(s: State): State {
    var d := DeliverAll(s.(ring := s.ring.(cq := [])), K.OfOperations(s.ring.cq));
    if d.mode.Faulted? then d else d.(mode := Polled)
  }

  function DispatchNext(s: State): State
    requires s.ready != []
  {
    var d := s.(ready := s.ready[1..], running := s.ready[0], mode := Running);
    if s.ready[0] in s.fibers then d else Fault(d)
  }

  // ---------------------------------------------------------------------------------------------
  // The machine
  // ---------------------------------------------------------------------------------------------

  predicate InUserCode(s: State) {
    s.mode.Running? && s.running in s.fibers && s.fibers[s.running].continuation.User?
  }

  predicate IsParkReturning(s: State) {
    && s.mode.Running? && s.running in s.fibers
    && !s.fibers[s.running].continuation.User? && !s.fibers[s.running].continuation.Finished?
  }

  predicate Enabled(s: State, a: Action) {
    match a
    case Spawn(slot) => InUserCode(s) && slot !in s.fibers && slot < K.ASYNC_CANCELLATION_USER_DATA
    case Drop(h) => InUserCode(s) && h in s.handles
    case Forget(h) => InUserCode(s) && h in s.handles
    case CancelHandle(h) => InUserCode(s) && h in s.handles
    case Join(h) => InUserCode(s) && h in s.handles
    case CancelSelf => InUserCode(s)
    case CancelPropagating => InUserCode(s)
    case Yield => InUserCode(s)
    case Syscall => InUserCode(s)
    case Return(_) => InUserCode(s)
    case Resume => IsParkReturning(s)
    case Reap => s.mode.Polling?
    case Dispatch => s.mode.Polled? && s.ready != []
    case Block => s.mode.Polled? && s.ready == []
    case Unblock => s.mode.Blocked? && s.ring.cq != []
    case KernelDone(i, _) => i < |s.ring.inFlight| && !s.mode.Returned? && !s.mode.Faulted?
  }

  ghost function ReturnFromPark(s: State): State
    requires IsParkReturning(s)
  {
    match s.fibers[s.running].continuation
    case Syscall1(op) => ContinueSyscall(s, op)
    case Syscall2(op) => TakeResult(s)
    case Join1(h) => ContinueJoin(s, h)
    case Join2(h) => DropHandle(WithContinuation(s, User), h)
    case AwaitChildren(outcome) => Finish(s, outcome)
  }

  ghost function Next(s: State, a: Action): State
    requires Enabled(s, a)
  {
    match a
    case Spawn(slot) => SpawnFiber(s, slot)
    case Drop(h) => DropHandle(s.(handles := s.handles - {h}), h)
    case Forget(h) => s.(handles := s.handles - {h})
    case CancelHandle(h) => CancelTree(s, h.slot)
    case CancelSelf => CancelTree(s, s.running)
    case CancelPropagating => CancelTree(s, 0)
    case Yield => s.(ready := Wake(s.ready, s.running), mode := Polling)
    case Syscall => BeginSyscall(s)
    case Join(h) => BeginJoin(s, h)
    case Return(outcome) => ReturnFrom(s, outcome)
    case Resume => ReturnFromPark(s)
    case Reap => ReapCompleted(s)
    case Dispatch => DispatchNext(s)
    case Block => s.(ring := K.Submit(s.ring), mode := Blocked)
    case Unblock => s.(mode := Polling)
    case KernelDone(i, result) => s.(ring := K.Complete(s.ring, i, result))
  }

  // ---------------------------------------------------------------------------------------------
  // Consuming a handle
  // ---------------------------------------------------------------------------------------------

  /** The slot whose handle the action consumes if its fiber has completed. */
  function Consumes(s: State, a: Action): Option<nat> {
    match a
    case Drop(h) => Some(h.slot)
    case Join(h) => Some(h.slot)
    case Resume =>
      if s.running !in s.fibers then None
      else
        (match s.fibers[s.running].continuation
         case Join1(h) => Some(h.slot)
         case Join2(h) => Some(h.slot)
         case _ => None)
    case _ => None
  }

  /**
   The run hypothesis: no handle is consumed while its fiber has completed but not yet finished, that is,
   while the fiber still waits for its children. The source tests only `isCompleted` there.
   */
  predicate Timely(s: State, a: Action) {
    var t := Consumes(s, a);
    t.Some? && t.value in s.fibers && s.fibers[t.value].isCompleted ==> s.fibers[t.value].continuation.Finished?
  }
}
