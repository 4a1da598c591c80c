/** What every reachable state of the fiber machine satisfies, on runs that consume handles in time. */
module FiberInvariant {
  import opened Options
  import opened Fibers
  import opened FiberTree
  import opened FiberMachine
  import K = Kernel

  /** `f` will run again without any further event: it runs, or waits in the ready queue. */
  ghost predicate Awake(s: State, f: nat) {
    f in s.ready || ((s.mode.Running? || s.mode.Returned?) && f == s.running)
  }

  /** Slots fit the user data of a submission, and stamps name fibers uniquely. */
  ghost predicate Numbered(fs: Slab, clock: nat) {
    && (forall f :: f in fs ==> f < K.ASYNC_CANCELLATION_USER_DATA && fs[f].stamp < clock)
    && (forall f, g {:trigger fs[f].stamp, fs[g].stamp} :: f in fs && g in fs && f != g ==> fs[f].stamp != fs[g].stamp)
  }

  ghost predicate QueueOk(s: State) {
    && NoDuplicates(s.ready)
    && (forall f :: f in s.ready ==> f in s.fibers)
    && (s.mode.Running? || s.mode.Returned? ==> s.running in s.fibers && s.running !in s.ready)
    && (s.mode.Returned? ==> s.running == 0 && s.fibers[0].continuation.AwaitChildren?)
  }

  predicate InSyscall(p: Point) {
    p.Syscall1? || p.Syscall2?
  }

  ghost predicate FlagsOk(f: Fiber) {
    && (f.isCompleted <==> f.continuation.AwaitChildren? || f.continuation.Finished?)
    && (f.isCompleted ==> f.isCancelled)
    && (f.syscallResult.Some? ==> InSyscall(f.continuation))
  }

  /** Why the fiber `f` is awake, and what will wake it if it is not. */
  ghost predicate ParkedOk(s: State, f: nat)
    requires f in s.fibers
  {
    var x := s.fibers[f];
    match x.continuation
    case User => Awake(s, f)
    case Syscall1(_) => Awake(s, f) <==> x.syscallResult.Some? || x.isCancelled
    case Syscall2(_) => x.isCancelled && (Awake(s, f) <==> x.syscallResult.Some?)
    case Join1(h) =>
      && h.slot in s.fibers
      && (s.fibers[h.slot].continuation.Finished? ==> Awake(s, f))
      && (Awake(s, f) ==> s.fibers[h.slot].continuation.Finished? || x.isCancelled)
    case Join2(h) =>
      && h.slot in s.fibers
      && x.isCancelled
      && (Awake(s, f) <==> s.fibers[h.slot].continuation.Finished?)
    case AwaitChildren(_) => Awake(s, f) <==> x.children == {}
    case Finished => !Awake(s, f) && x.children == {}
  }

  /** A held handle names the fiber it was made for, which nobody joins. */
  ghost predicate HandleOk(fs: Slab, h: Handle) {
    && h.slot in fs && h.slot != 0
    && fs[h.slot].stamp == h.stamp
    && fs[h.slot].joinHandle.Unused?
  }

  /** A joining fiber and its target know each other. */
  ghost predicate JoiningOk(fs: Slab, f: nat, h: Handle) {
    && h.slot in fs
    && fs[h.slot].stamp == h.stamp
    && fs[h.slot].joiner == Some(f)
  }

  ghost predicate TargetOk(fs: Slab, t: nat)
    requires t in fs
  {
    match fs[t].joiner
    case None => fs[t].joinHandle.Unused? || (fs[t].joinHandle.Dropped? && !fs[t].continuation.Finished?)
    case Some(j) =>
      && t != 0
      && JoinsOn(fs, j, Handle(t, fs[t].stamp))
      && fs[t].joinHandle == Waiting(if fs[t].continuation.Finished? then None else Some(j))
  }

  ghost predicate HandlesOk(fs: Slab, handles: set<Handle>) {
    && (forall h {:trigger HandleOk(fs, h)} {:trigger h in handles} :: h in handles ==> HandleOk(fs, h))
    && (forall f, h :: JoinsOn(fs, f, h) ==> JoiningOk(fs, f, h))
    && (forall t {:trigger TargetOk(fs, t)} :: t in fs ==> TargetOk(fs, t))
    && 0 in fs && fs[0].joinHandle.Unused?
  }

  /** The fiber `user` waits for the completion of the operation `op`. */
  ghost predicate Pending(fs: Slab, user: nat, op: nat) {
    && user in fs
    && (fs[user].continuation == Syscall1(op) || fs[user].continuation == Syscall2(op))
    && fs[user].syscallResult.None?
  }

  /** The kernel holds exactly the operations that some fiber waits for, each once. */
  ghost predicate WorkOk(fs: Slab, ring: K.Ring) {
    forall user, op :: K.Outstanding(ring, user, op) == if Pending(fs, user, op) then 1 else 0
  }

  ghost predicate RingOk(s: State) {
    K.Tagged(s.ring) && K.CancelsAreOwn(s.ring) && WorkOk(s.fibers, s.ring)
  }

  /** `f` is what keeps the stack `k` out of the pool. */
  ghost predicate Owns(s: State, f: nat, k: nat) {
    f in s.fibers && s.fibers[f].stack == k && !(s.mode.Returned? && f == 0)
  }

  /** Every stack ever mapped is in the pool once, or owned by one fiber, never both. */
  ghost predicate StacksOk(s: State) {
    && NoDuplicates(s.stackPool)
    && (forall f, g {:trigger s.fibers[f].stack, s.fibers[g].stack} ::
          f in s.fibers && g in s.fibers && f != g ==> s.fibers[f].stack != s.fibers[g].stack)
    && (forall f :: f in s.fibers ==> s.fibers[f].stack < s.mapped)
    && (forall k :: k in s.stackPool ==> k < s.mapped)
    && (forall f, k :: Owns(s, f, k) ==> k !in s.stackPool)
    && (forall k: nat :: k < s.mapped && k !in s.stackPool ==> exists f :: Owns(s, f, k))
  }

  /** A completed fiber's stack holds what that fiber returned. */
  ghost predicate ResultOk(s: State, f: nat)
    requires f in s.fibers
  {
    var x := s.fibers[f];
    if x.isCompleted then
      && x.stamp in s.returned
      && x.stack in s.stacks && s.stacks[x.stack] == Output(s.returned[x.stamp])
      && (x.continuation.AwaitChildren? ==> x.continuation.outcome == s.returned[x.stamp])
    else x.stamp !in s.returned
  }

  ghost predicate ResultsOk(s: State) {
    && (forall f {:trigger ResultOk(s, f)} :: f in s.fibers ==> ResultOk(s, f))
    && (forall stamp :: stamp in s.returned ==> stamp < s.clock)
  }

  /** Below a fiber that is cancelled and has not completed, everything is cancelled. */
  ghost predicate CancelledBelow(fs: Slab)
    requires Tree(fs)
  {
    forall f, g {:trigger Below(fs, g, f)} ::
      Unfinished(fs, g) && Below(fs, g, f) && f in fs && fs[f].isCancelled && !fs[f].isCompleted ==>
        fs[g].isCancelled
  }

  ghost predicate Inv(s: State) {
    && !s.mode.Faulted?
    && Numbered(s.fibers, s.clock)
    && Tree(s.fibers)
    && QueueOk(s)
    && (forall f {:trigger FlagsOk(s.fibers[f])} :: f in s.fibers ==> FlagsOk(s.fibers[f]))
    && (forall f {:trigger ParkedOk(s, f)} :: f in s.fibers ==> ParkedOk(s, f))
    && HandlesOk(s.fibers, s.handles)
    && RingOk(s)
    && StacksOk(s)
    && ResultsOk(s)
    && CancelledBelow(s.fibers)
  }
}
