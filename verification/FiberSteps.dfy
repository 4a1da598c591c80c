/** Every step of the fiber machine keeps the invariant. */
module FiberSteps {
  import opened Options
  import opened Fibers
  import opened FiberTree
  import opened FiberMachine
  import opened FiberInvariant
  import K = Kernel

  // ---------------------------------------------------------------------------------------------
  // Frames
  // ---------------------------------------------------------------------------------------------

  ghost predicate SameTree(fs: Slab, gs: Slab) {
    && fs.Keys == gs.Keys
    && forall f :: f in fs ==>
         && fs[f].parent == gs[f].parent && fs[f].children == gs[f].children && fs[f].stamp == gs[f].stamp
         && fs[f].continuation.Finished? == gs[f].continuation.Finished?
  }

  /** No fiber lost its cancellation, and none that is cancelled now but was not is still to complete. */
  ghost predicate FlagsGrow(fs: Slab, gs: Slab) {
    forall f :: f in fs && f in gs ==>
      && (fs[f].isCancelled ==> gs[f].isCancelled)
      && (gs[f].isCancelled && !gs[f].isCompleted ==> fs[f].isCancelled && !fs[f].isCompleted)
  }

  lemma TreeFrame(fs: Slab, gs: Slab)
    requires Tree(fs) && SameTree(fs, gs)
    ensures Tree(gs)
  {
    forall f | Unfinished(gs, f) ensures Linked(gs, f) {
      assert Linked(fs, f);
    }
    forall p, c | p in gs && c in gs[p].children
      ensures Unfinished(gs, p) && Unfinished(gs, c) && c != 0 && gs[c].parent == Some(p)
    {
      assert c in fs[p].children;
    }
  }

  lemma CancelledBelowFrame(fs: Slab, gs: Slab)
    requires Tree(fs) && SameTree(fs, gs) && CancelledBelow(fs) && FlagsGrow(fs, gs)
    ensures Tree(gs) && CancelledBelow(gs)
  {
    TreeFrame(fs, gs);
    forall f, g | Unfinished(gs, g) && Below(gs, g, f) && f in gs && gs[f].isCancelled && !gs[f].isCompleted
      ensures gs[g].isCancelled
    {
      BelowFrame(gs, fs, g, f);
    }
  }

  lemma StacksFrame(s: State, s': State)
    requires StacksOk(s) && s'.stackPool == s.stackPool && s'.mapped == s.mapped
    requires s'.fibers.Keys == s.fibers.Keys && forall f :: f in s.fibers ==> s'.fibers[f].stack == s.fibers[f].stack
    requires !s.mode.Returned? && !s'.mode.Returned?
    ensures StacksOk(s')
  {
    assert forall f, k :: Owns(s', f, k) <==> Owns(s, f, k);
  }

  ghost predicate SameSyscalls(fs: Slab, gs: Slab) {
    && fs.Keys == gs.Keys
    && forall f :: f in fs && (InSyscall(fs[f].continuation) || InSyscall(gs[f].continuation)) ==>
         gs[f].continuation == fs[f].continuation && gs[f].syscallResult == fs[f].syscallResult
  }

  lemma RingFrame(s: State, s': State)
    requires RingOk(s) && s'.ring == s.ring && s'.fibers.Keys == s.fibers.Keys
    requires SameSyscalls(s.fibers, s'.fibers)
    ensures RingOk(s')
  {}

  /** Everything but the join handles, the ready queue and the fibers' parks. */
  ghost predicate Rest(s: State) {
    Tree(s.fibers) && CancelledBelow(s.fibers) && Numbered(s.fibers, s.clock) && RingOk(s) && StacksOk(s)
  }

  /** Nothing changes that the tree, the ring or the stacks depend on. */
  ghost predicate Framed(s: State, s': State) {
    && SameTree(s.fibers, s'.fibers) && FlagsGrow(s.fibers, s'.fibers)
    && s'.clock == s.clock && s'.ring == s.ring && s'.stackPool == s.stackPool && s'.mapped == s.mapped
    && (forall f :: f in s.fibers ==> s'.fibers[f].stack == s.fibers[f].stack)
    && SameSyscalls(s.fibers, s'.fibers)
    && !s.mode.Returned? && !s'.mode.Returned?
  }

  lemma RestFrame(s: State, s': State)
    requires Rest(s) && Framed(s, s')
    ensures Rest(s')
  {
    CancelledBelowFrame(s.fibers, s'.fibers);
    StacksFrame(s, s');
    RingFrame(s, s');
  }

  /** Steps that leave all fibers as they are and keep them as awake as they were. */
  lemma Untouched(s: State, s': State)
    requires Inv(s)
    requires s' == s.(ready := s'.ready, running := s'.running, mode := s'.mode, ring := s'.ring)
    requires forall f :: Awake(s', f) <==> Awake(s, f)
    requires !s.mode.Returned? && !s'.mode.Returned? && !s'.mode.Faulted?
    requires QueueOk(s') && RingOk(s')
    ensures Inv(s')
  {
    assert forall f, k :: Owns(s', f, k) <==> Owns(s, f, k);
    forall f | f in s'.fibers ensures ParkedOk(s', f) && ResultOk(s', f) {
      assert ParkedOk(s, f) && ResultOk(s, f);
    }
  }

  lemma GoodIsNotFaulted(s: State)
    requires Inv(s)
    ensures !s.mode.Faulted?
  {}

  // ---------------------------------------------------------------------------------------------
  // The kernel, process_io, yield
  // ---------------------------------------------------------------------------------------------

  lemma KernelDoneKeeps(s: State, i: nat, result: int)
    requires Inv(s) && Enabled(s, KernelDone(i, result))
    ensures Inv(Next(s, KernelDone(i, result)))
  {
    K.CompleteKeeps(s.ring, i, result);
    Untouched(s, Next(s, KernelDone(i, result)));
  }

  lemma BlockKeeps(s: State)
    requires Inv(s) && Enabled(s, Block)
    ensures Inv(Next(s, Block))
  {
    K.SubmitKeeps(s.ring);
    Untouched(s, Next(s, Block));
  }

  lemma UnblockKeeps(s: State)
    requires Inv(s) && Enabled(s, Unblock)
    ensures Inv(Next(s, Unblock))
  {
    Untouched(s, Next(s, Unblock));
  }

  lemma DispatchKeeps(s: State)
    requires Inv(s) && Enabled(s, Dispatch)
    ensures Inv(Next(s, Dispatch))
  {
    assert s.ready[0] in s.ready;
    assert s.ready == [s.ready[0]] + s.ready[1..];
    Untouched(s, Next(s, Dispatch));
  }

  lemma YieldKeeps(s: State)
    requires Inv(s) && Enabled(s, Yield)
    ensures Inv(Next(s, Yield))
  {
    Untouched(s, Next(s, Yield));
  }

  // ---------------------------------------------------------------------------------------------
  // Cancellation
  // ---------------------------------------------------------------------------------------------

  lemma {:induction false} NewlyWokenMembers(fs: Slab, ready: seq<nat>, running: nat, visit: seq<nat>)
    requires forall f :: f in visit ==> f in fs
    ensures forall f :: f in NewlyWoken(fs, ready, running, visit)
              <==> f in visit && !fs[f].isCancelled && f != running && f !in ready
    ensures NoDuplicates(visit) ==> NoDuplicates(NewlyWoken(fs, ready, running, visit))
    ensures (forall f :: f in visit ==> fs[f].isCancelled) ==> NewlyWoken(fs, ready, running, visit) == []
  {
    if visit != [] {
      NewlyWokenMembers(fs, ready, running, visit[1..]);
      assert visit == [visit[0]] + visit[1..];
      if NoDuplicates(visit) {
        var head := if !fs[visit[0]].isCancelled && visit[0] != running && visit[0] !in ready then [visit[0]] else [];
        NoDuplicatesConcat(head, NewlyWoken(fs, ready, running, visit[1..]));
      }
    }
  }

  lemma SubtreeIsCancelled(s: State, root: nat)
    requires Tree(s.fibers) && CancelledBelow(s.fibers) && Shape(s.fibers)
    requires root in s.fibers && s.fibers[root].isCancelled
    requires if s.fibers[root].continuation.Finished? then s.fibers[root].children == {}
             else !s.fibers[root].isCompleted
    ensures forall g :: g in PreOrder(s.fibers, root) ==> g in s.fibers && s.fibers[g].isCancelled
  {
    var fs := s.fibers;
    if fs[root].continuation.Finished? {
      assert Ascending(fs[root].children) == [];
      assert PreOrderAll(fs, fs[root].stamp, Ascending(fs[root].children)) == [];
    } else {
      PreOrderIsSubtree(fs, root);
      forall g | g in PreOrder(fs, root) ensures g in fs && fs[g].isCancelled {
        assert Below(fs, g, root);
      }
    }
  }

  lemma CancellingCancelled(s: State, visit: seq<nat>)
    requires forall g :: g in visit ==> g in s.fibers && s.fibers[g].isCancelled
    ensures WithCancelled(s.fibers, visit) == s.fibers
    ensures s.ready + NewlyWoken(s.fibers, s.ready, s.running, visit) == s.ready
  {}

  /** Cancelling a finished fiber, or one cancelled before it completed, changes nothing at all. */
  lemma CancelledAgain(s: State, root: nat)
    requires Inv(s) && root in s.fibers && s.fibers[root].isCancelled
    requires s.fibers[root].isCompleted ==> s.fibers[root].continuation.Finished?
    ensures CancelTree(s, root) == s
  {
    assert ParkedOk(s, root) && FlagsOk(s.fibers[root]);
    TreeHasShape(s.fibers);
    SubtreeIsCancelled(s, root);
    CancellingCancelled(s, PreOrder(s.fibers, root));
  }

  ghost predicate OnlyCancels(fs: Slab, gs: Slab) {
    && fs.Keys == gs.Keys
    && forall f :: f in fs ==> gs[f] == fs[f].(isCancelled := gs[f].isCancelled)
  }

  lemma OnlyCancelsKeepsHandles(fs: Slab, gs: Slab, handles: set<Handle>)
    requires HandlesOk(fs, handles) && OnlyCancels(fs, gs)
    ensures HandlesOk(gs, handles)
  {
    forall t | t in gs ensures TargetOk(gs, t) {
      assert TargetOk(fs, t);
    }
    forall f, h | JoinsOn(gs, f, h) ensures JoiningOk(gs, f, h) {
      assert JoinsOn(fs, f, h);
    }
    forall h | h in handles ensures HandleOk(gs, h) {
      assert HandleOk(fs, h);
    }
  }

  lemma OnlyCancelsKeepsStacks(s: State, s': State)
    requires RingOk(s) && StacksOk(s) && OnlyCancels(s.fibers, s'.fibers)
    requires s' == s.(fibers := s'.fibers, ready := s'.ready)
    ensures RingOk(s') && StacksOk(s')
  {
    assert forall user, op :: Pending(s'.fibers, user, op) <==> Pending(s.fibers, user, op);
    assert forall f, k :: Owns(s', f, k) <==> Owns(s, f, k);
  }

  lemma OnlyCancelsKeepsResults(s: State, s': State)
    requires ResultsOk(s) && OnlyCancels(s.fibers, s'.fibers)
    requires s' == s.(fibers := s'.fibers, ready := s'.ready)
    ensures ResultsOk(s')
  {
    forall f | f in s'.fibers ensures ResultOk(s', f) {
      assert ResultOk(s, f);
    }
  }

  lemma OnlyCancelsKeeps(s: State, s': State)
    requires Inv(s) && OnlyCancels(s.fibers, s'.fibers)
    requires s' == s.(fibers := s'.fibers, ready := s'.ready)
    ensures Tree(s'.fibers) && HandlesOk(s'.fibers, s'.handles) && RingOk(s') && StacksOk(s') && ResultsOk(s')
    ensures Numbered(s'.fibers, s'.clock)
  {
    hide Tree, HandlesOk, RingOk, StacksOk, ResultsOk, ParkedOk, FlagsOk, QueueOk;
    TreeFrame(s.fibers, s'.fibers);
    OnlyCancelsKeepsHandles(s.fibers, s'.fibers, s.handles);
    OnlyCancelsKeepsStacks(s, s');
    OnlyCancelsKeepsResults(s, s');
  }

  lemma CancelUnfinishedKeeps(s: State, root: nat, visit: seq<nat>, s': State)
    requires Inv(s) && s.mode.Running? && Unfinished(s.fibers, root) && Shape(s.fibers)
    requires visit == PreOrder(s.fibers, root)
    requires s' == s.(fibers := s'.fibers, ready := s'.ready) && s'.fibers == WithCancelled(s.fibers, visit)
    requires QueueOk(s') && forall g :: g in visit ==> Unfinished(s.fibers, g)
    requires forall g :: Awake(s', g) <==> Awake(s, g) || (g in visit && g in s.fibers && !s.fibers[g].isCancelled)
    ensures Inv(s')
  {
    hide Numbered, Tree, QueueOk, FlagsOk, ParkedOk, ResultOk, HandlesOk, RingOk, StacksOk, CancelledBelow;
    OnlyCancelsKeeps(s, s');
    CancelKeepsClosure(s.fibers, root);
    CancelKeepsParks(s, s', visit);
  }

  lemma CancelKeepsParks(s: State, s': State, visit: seq<nat>)
    requires Inv(s) && s'.fibers == WithCancelled(s.fibers, visit) && forall g :: g in visit ==> Unfinished(s.fibers, g)
    requires s' == s.(fibers := s'.fibers, ready := s'.ready)
    requires forall g :: Awake(s', g) <==> Awake(s, g) || (g in visit && g in s.fibers && !s.fibers[g].isCancelled)
    ensures forall f :: f in s'.fibers ==> ParkedOk(s', f) && FlagsOk(s'.fibers[f])
  {
    forall f | f in s'.fibers ensures ParkedOk(s', f) && FlagsOk(s'.fibers[f]) {
      assert ParkedOk(s, f) && FlagsOk(s.fibers[f]);
      CancelKeepsPark(s, s', f, visit);
    }
  }

  lemma CancelKeeps(s: State, root: nat)
    requires Inv(s) && s.mode.Running? && root in s.fibers
    ensures Inv(CancelTree(s, root))
  {
    if s.fibers[root].continuation.Finished? {
      assert FlagsOk(s.fibers[root]);
      CancelledAgain(s, root);
    } else {
      TreeHasShape(s.fibers);
      PreOrderIsSubtree(s.fibers, root);
      CancelKeepsQueue(s, PreOrder(s.fibers, root), CancelTree(s, root));
      CancelUnfinishedKeeps(s, root, PreOrder(s.fibers, root), CancelTree(s, root));
    }
  }

  lemma CancelKeepsQueue(s: State, visit: seq<nat>, s': State)
    requires QueueOk(s) && NoDuplicates(visit) && (forall g :: g in visit ==> g in s.fibers) && s.mode.Running?
    requires s' == s.(fibers := WithCancelled(s.fibers, visit),
                      ready := s.ready + NewlyWoken(s.fibers, s.ready, s.running, visit))
    ensures QueueOk(s')
    ensures forall f :: Awake(s', f) <==> Awake(s, f) || (f in visit && f in s.fibers && !s.fibers[f].isCancelled)
  {
    NewlyWokenMembers(s.fibers, s.ready, s.running, visit);
    NoDuplicatesConcat(s.ready, NewlyWoken(s.fibers, s.ready, s.running, visit));
  }

  lemma CancelKeepsPark(s: State, s': State, f: nat, visit: seq<nat>)
    requires f in s.fibers && ParkedOk(s, f) && FlagsOk(s.fibers[f])
    requires forall g :: g in visit ==> Unfinished(s.fibers, g)
    requires s' == s.(fibers := WithCancelled(s.fibers, visit), ready := s'.ready)
    requires forall g :: Awake(s', g) <==> Awake(s, g) || (g in visit && g in s.fibers && !s.fibers[g].isCancelled)
    ensures ParkedOk(s', f) && FlagsOk(s'.fibers[f])
  {}

  lemma CancelKeepsClosure(fs: Slab, root: nat)
    requires Tree(fs) && CancelledBelow(fs) && Shape(fs) && Unfinished(fs, root)
    ensures Tree(WithCancelled(fs, PreOrder(fs, root))) && CancelledBelow(WithCancelled(fs, PreOrder(fs, root)))
  {
    var gs := WithCancelled(fs, PreOrder(fs, root));
    PreOrderIsSubtree(fs, root);
    TreeFrame(fs, gs);
    forall f, g | Unfinished(gs, g) && Below(gs, g, f) && f in gs && gs[f].isCancelled && !gs[f].isCompleted
      ensures gs[g].isCancelled
    {
      BelowFrame(gs, fs, g, f);
      if !fs[f].isCancelled {
        BelowIsLater(fs, g, f);
        BelowTransitive(fs, g, f, root);
      }
    }
  }

  // ---------------------------------------------------------------------------------------------
  // Spawning
  // ---------------------------------------------------------------------------------------------

  /** `gs` is `fs` with the new leaf `c` under `r`. */
  ghost predicate AddsChild(fs: Slab, gs: Slab, r: nat, c: nat) {
    && Unfinished(fs, r) && c !in fs && c != 0
    && gs.Keys == fs.Keys + {c}
    && (forall f :: f in fs && f != r ==> gs[f] == fs[f])
    && gs[r] == fs[r].(children := fs[r].children + {c})
    && gs[c].parent == Some(r) && gs[c].children == {} && gs[c].isCancelled == fs[r].isCancelled
    && gs[c].continuation.User? && gs[c].joinHandle.Unused? && gs[c].joiner.None? && gs[c].syscallResult.None?
    && !gs[c].isCompleted
    && fs[r].stamp < gs[c].stamp
  }

  lemma AddChildKeepsTree(fs: Slab, gs: Slab, r: nat, c: nat)
    requires Tree(fs) && AddsChild(fs, gs, r, c)
    ensures Tree(gs)
  {
    forall f | Unfinished(gs, f) ensures Linked(gs, f) {
      if f != c {
        assert Unfinished(fs, f) && Linked(fs, f);
      }
    }
    forall p, d | p in gs && d in gs[p].children
      ensures Unfinished(gs, p) && Unfinished(gs, d) && d != 0 && gs[d].parent == Some(p)
    {
      if d != c {
        assert p in fs && d in fs[p].children;
      }
    }
  }

  lemma AddChildKeepsClosure(fs: Slab, gs: Slab, r: nat, c: nat)
    requires Tree(fs) && CancelledBelow(fs) && AddsChild(fs, gs, r, c)
    ensures Tree(gs) && CancelledBelow(gs)
  {
    AddChildKeepsTree(fs, gs, r, c);
    forall f, g | Unfinished(gs, g) && Below(gs, g, f) && f in gs && gs[f].isCancelled && !gs[f].isCompleted
      ensures gs[g].isCancelled
    {
      assert Linked(gs, g);
      if g != c {
        BelowFrame(gs, fs, g, f);
        BelowIsLater(fs, g, f);
      } else if f != c {
        BelowFrame(gs, fs, r, f);
        BelowIsLater(fs, r, f);
      }
    }
  }

  lemma AddChildKeepsHandles(fs: Slab, gs: Slab, r: nat, c: nat, handles: set<Handle>)
    requires HandlesOk(fs, handles) && AddsChild(fs, gs, r, c)
    ensures HandlesOk(gs, handles + {Handle(c, gs[c].stamp)})
  {
    forall t | t in gs ensures TargetOk(gs, t) {
      if t != c {
        assert TargetOk(fs, t);
      }
    }
    forall f, h | JoinsOn(gs, f, h) ensures JoiningOk(gs, f, h) {
      assert JoinsOn(fs, f, h);
    }
    forall h | h in handles ensures HandleOk(gs, h) {
      assert HandleOk(fs, h);
    }
  }

  /** A new fiber gets the pool's last stack, or a newly mapped one when the pool is empty. */
  ghost predicate TakesStack(s: State, s': State, c: nat) {
    && c !in s.fibers && s'.fibers.Keys == s.fibers.Keys + {c}
    && s'.mode == s.mode && !s.mode.Returned?
    && (forall f :: f in s.fibers ==> s'.fibers[f].stack == s.fibers[f].stack)
    && var stack := s'.fibers[c].stack;
    && if s.stackPool == [] then s'.stackPool == [] && stack == s.mapped && s'.mapped == s.mapped + 1
       else s.stackPool == s'.stackPool + [stack] && s'.mapped == s.mapped
  }

  lemma TakeKeepsStacks(s: State, s': State, c: nat)
    requires StacksOk(s) && TakesStack(s, s', c)
    ensures StacksOk(s')
    ensures forall f :: f in s.fibers ==> s.fibers[f].stack != s'.fibers[c].stack
  {
    var stack := s'.fibers[c].stack;
    if s.stackPool != [] {
      assert s.stackPool[|s'.stackPool|] == stack && stack in s.stackPool;
      assert forall k :: k in s'.stackPool ==> k in s.stackPool;
      assert forall i :: 0 <= i < |s'.stackPool| ==> s'.stackPool[i] == s.stackPool[i];
    }
    forall f | f in s.fibers ensures s.fibers[f].stack != stack {
      assert Owns(s, f, s.fibers[f].stack);
    }
    forall f, k | Owns(s', f, k) ensures k !in s'.stackPool {
      if f != c {
        assert Owns(s, f, k);
      }
    }
    forall k: nat | k < s'.mapped && k !in s'.stackPool ensures exists f :: Owns(s', f, k) {
      if k == stack {
        assert Owns(s', c, k);
      } else {
        assert k !in s.stackPool;
        var f :| Owns(s, f, k);
        assert Owns(s', f, k);
      }
    }
  }

  ghost predicate Spawns(s: State, s': State, c: nat) {
    && s.running in s.fibers && s.mode.Running? && s.fibers[s.running].continuation.User?
    && c < K.ASYNC_CANCELLATION_USER_DATA
    && AddsChild(s.fibers, s'.fibers, s.running, c)
    && TakesStack(s, s', c)
    && s'.fibers[c].stamp == s.clock && s'.clock == s.clock + 1
    && s' == s.(fibers := s'.fibers, ready := s.ready + [c], stackPool := s'.stackPool, mapped := s'.mapped,
                stacks := s.stacks[s'.fibers[c].stack := Closure], clock := s'.clock,
                handles := s.handles + {Handle(c, s.clock)})
  }

  lemma SpawnSpawns(s: State, slot: nat)
    requires Enabled(s, Spawn(slot)) && 0 in s.fibers && s.fibers[s.running].stamp < s.clock
    ensures Spawns(s, Next(s, Spawn(slot)), slot)
  {}

  lemma SpawnsAwake(s: State, s': State, c: nat)
    requires QueueOk(s) && Spawns(s, s', c)
    ensures forall f :: Awake(s', f) <==> Awake(s, f) || f == c
  {
    assert c !in s.ready;
  }

  lemma SpawnsKeepsFiber(s: State, s': State, c: nat, f: nat)
    requires Spawns(s, s', c) && StacksOk(s) && (forall g :: Awake(s', g) <==> Awake(s, g) || g == c)
    requires f in s.fibers && f != c && ParkedOk(s, f) && FlagsOk(s.fibers[f]) && ResultOk(s, f)
    ensures ParkedOk(s', f) && FlagsOk(s'.fibers[f]) && ResultOk(s', f)
  {
    NewStackIsFree(s, s', c);
    hide StacksOk;
  }

  lemma NewStackIsFree(s: State, s': State, c: nat)
    requires StacksOk(s) && TakesStack(s, s', c)
    ensures forall f :: f in s.fibers ==> s.fibers[f].stack != s'.fibers[c].stack
  {
    TakeKeepsStacks(s, s', c);
  }

  lemma SpawnedFiber(s: State, s': State, c: nat)
    requires Spawns(s, s', c) && ResultsOk(s) && QueueOk(s)
    ensures ParkedOk(s', c) && FlagsOk(s'.fibers[c]) && ResultOk(s', c)
  {
    assert c in s'.ready;
  }

  lemma SpawnsKeepsFibers(s: State, s': State, c: nat)
    requires Inv(s) && Spawns(s, s', c)
    ensures forall f :: f in s'.fibers ==> ParkedOk(s', f) && FlagsOk(s'.fibers[f]) && ResultOk(s', f)
  {
    SpawnsAwake(s, s', c);
    SpawnedFiber(s, s', c);
    hide ParkedOk, FlagsOk, ResultOk, HandlesOk, RingOk, StacksOk, QueueOk, Tree, Numbered, TakesStack;
    forall f | f in s'.fibers ensures ParkedOk(s', f) && FlagsOk(s'.fibers[f]) && ResultOk(s', f) {
      if f != c {
        assert ParkedOk(s, f) && FlagsOk(s.fibers[f]) && ResultOk(s, f);
        SpawnsKeepsFiber(s, s', c, f);
      }
    }
  }

  lemma SpawnKeeps(s: State, slot: nat)
    requires Inv(s) && Enabled(s, Spawn(slot))
    ensures Inv(Next(s, Spawn(slot)))
  {
    SpawnSpawns(s, slot);
    SpawnsKeeps(s, Next(s, Spawn(slot)), slot);
  }

  lemma SpawnsKeepsQueue(s: State, s': State, c: nat)
    requires Spawns(s, s', c) && QueueOk(s) && Numbered(s.fibers, s.clock)
    ensures QueueOk(s') && Numbered(s'.fibers, s'.clock)
  {
    assert c !in s.ready;
  }

  lemma SpawnsKeepsWork(s: State, s': State, c: nat)
    requires Spawns(s, s', c) && WorkOk(s.fibers, s.ring)
    ensures WorkOk(s'.fibers, s.ring)
  {}

  lemma SpawnsKeeps(s: State, s': State, c: nat)
    requires Inv(s) && Spawns(s, s', c)
    ensures Inv(s')
  {
    AddChildKeepsClosure(s.fibers, s'.fibers, s.running, c);
    AddChildKeepsHandles(s.fibers, s'.fibers, s.running, c, s.handles);
    TakeKeepsStacks(s, s', c);
    SpawnsKeepsFibers(s, s', c);
    SpawnsKeepsQueue(s, s', c);
    SpawnsKeepsWork(s, s', c);
  }

  // ---------------------------------------------------------------------------------------------
  // System calls
  // ---------------------------------------------------------------------------------------------

  /** Only the continuation and the system call result of `r` change, and `r` is in no join. */
  ghost predicate Moves(s: State, s': State, r: nat) {
    && r in s.fibers && !s.fibers[r].isCompleted
    && s'.fibers.Keys == s.fibers.Keys
    && (forall f :: f in s.fibers && f != r ==> s'.fibers[f] == s.fibers[f])
    && s'.fibers[r]
       == s.fibers[r].(continuation := s'.fibers[r].continuation, syscallResult := s'.fibers[r].syscallResult)
    && (s.fibers[r].continuation.User? || InSyscall(s.fibers[r].continuation))
    && (s'.fibers[r].continuation.User? || InSyscall(s'.fibers[r].continuation))
    && s' == s.(fibers := s'.fibers, ready := s'.ready, mode := s'.mode, ring := s'.ring, clock := s'.clock)
    && s'.clock >= s.clock
    && !s.mode.Returned? && !s'.mode.Returned? && !s'.mode.Faulted?
    && (forall f :: f != r ==> (Awake(s', f) <==> Awake(s, f)))
  }

  lemma MovesKeepsFibers(s: State, s': State, r: nat)
    requires Inv(s) && Moves(s, s', r) && ParkedOk(s', r) && FlagsOk(s'.fibers[r])
    ensures forall f :: f in s'.fibers ==> ParkedOk(s', f) && FlagsOk(s'.fibers[f]) && ResultOk(s', f)
  {
    forall f | f in s'.fibers ensures ParkedOk(s', f) && FlagsOk(s'.fibers[f]) && ResultOk(s', f) {
      assert ParkedOk(s, f) && FlagsOk(s.fibers[f]) && ResultOk(s, f);
    }
  }

  lemma MovesKeepsHandles(s: State, s': State, r: nat)
    requires HandlesOk(s.fibers, s.handles) && Moves(s, s', r)
    ensures HandlesOk(s'.fibers, s.handles)
  {
    forall t | t in s'.fibers ensures TargetOk(s'.fibers, t) {
      assert TargetOk(s.fibers, t);
    }
    forall f, h | JoinsOn(s'.fibers, f, h) ensures JoiningOk(s'.fibers, f, h) {
      assert JoinsOn(s.fibers, f, h);
    }
    forall h | h in s.handles ensures HandleOk(s'.fibers, h) {
      assert HandleOk(s.fibers, h);
    }
  }

  lemma MovesKeepsTree(s: State, s': State, r: nat)
    requires Tree(s.fibers) && CancelledBelow(s.fibers) && Moves(s, s', r) && Numbered(s.fibers, s.clock)
    ensures Tree(s'.fibers) && CancelledBelow(s'.fibers) && Numbered(s'.fibers, s'.clock)
  {
    CancelledBelowFrame(s.fibers, s'.fibers);
  }

  lemma MovesKeeps(s: State, s': State, r: nat)
    requires Inv(s) && Moves(s, s', r) && ParkedOk(s', r) && FlagsOk(s'.fibers[r]) && QueueOk(s') && RingOk(s')
    ensures Inv(s')
  {
    hide Numbered, Tree, QueueOk, FlagsOk, ParkedOk, ResultOk, HandlesOk, RingOk, StacksOk, CancelledBelow;
    MovesKeepsTree(s, s', r);
    MovesKeepsFibers(s, s', r);
    MovesKeepsHandles(s, s', r);
    StacksFrame(s, s');
  }

  lemma BeginSyscallRing(s: State)
    requires RingOk(s) && Enabled(s, Syscall) && s.running < K.ASYNC_CANCELLATION_USER_DATA
    requires !s.fibers[s.running].isCancelled && s.fibers[s.running].syscallResult.None?
    ensures RingOk(BeginSyscall(s))
  {
    var r, s' := s.running, BeginSyscall(s);
    var e := K.Sqe(r, K.Operation, s.clock);
    K.IssueKeeps(s.ring, s.capacity, e);
    forall user, op ensures K.Outstanding(s'.ring, user, op) == if Pending(s'.fibers, user, op) then 1 else 0 {
      assert K.Queued([e], user, op) == if user == r && op == s.clock then 1 else 0;
      assert K.Outstanding(s.ring, user, op) == if Pending(s.fibers, user, op) then 1 else 0;
    }
  }

  lemma SyscallKeeps(s: State)
    requires Inv(s) && Enabled(s, Syscall)
    ensures Inv(Next(s, Syscall))
  {
    var r := s.running;
    assert FlagsOk(s.fibers[r]);
    if !s.fibers[r].isCancelled {
      BeginSyscallRing(s);
      MovesKeeps(s, BeginSyscall(s), r);
    }
  }

  lemma CancelSyscallRing(s: State, op: nat)
    requires RingOk(s) && s.running in s.fibers && s.running < K.ASYNC_CANCELLATION_USER_DATA
    requires s.fibers[s.running].continuation == Syscall1(op)
    requires s.fibers[s.running].isCancelled && s.fibers[s.running].syscallResult.None?
    ensures RingOk(ContinueSyscall(s, op))
  {
    var r, s' := s.running, ContinueSyscall(s, op);
    var e := K.Sqe(K.ASYNC_CANCELLATION_USER_DATA, K.AsyncCancel(r), op);
    forall o | K.Outstanding(s.ring, r, o) > 0 ensures o == op {
      assert Pending(s.fibers, r, o);
    }
    K.IssueKeeps(s.ring, s.capacity, e);
    forall user, o ensures K.Outstanding(s'.ring, user, o) == if Pending(s'.fibers, user, o) then 1 else 0 {
      assert K.Queued([e], user, o) == 0;
      assert K.Outstanding(s.ring, user, o) == if Pending(s.fibers, user, o) then 1 else 0;
    }
  }

  /** Taking a result that is there: `unwrap` cannot fail. */
  lemma TakeResultKeeps(s: State)
    requires Inv(s) && IsParkReturning(s) && InSyscall(s.fibers[s.running].continuation)
    requires s.fibers[s.running].syscallResult.Some?
    ensures Inv(TakeResult(s))
  {
    var r, s' := s.running, TakeResult(s);
    assert FlagsOk(s.fibers[r]);
    assert forall user, op :: Pending(s'.fibers, user, op) <==> Pending(s.fibers, user, op);
    MovesKeeps(s, s', r);
  }

  lemma ContinueSyscallKeeps(s: State, op: nat)
    requires Inv(s) && IsParkReturning(s) && s.fibers[s.running].continuation == Syscall1(op)
    ensures Inv(ContinueSyscall(s, op))
  {
    var r := s.running;
    assert ParkedOk(s, r) && FlagsOk(s.fibers[r]);
    if s.fibers[r].syscallResult.Some? {
      TakeResultKeeps(s);
    } else {
      CancelSyscallRing(s, op);
      MovesKeeps(s, ContinueSyscall(s, op), r);
    }
  }

  // ---------------------------------------------------------------------------------------------
  // Completions
  // ---------------------------------------------------------------------------------------------

  function WithCompletions(s: State, cq: seq<K.Cqe>): State {
    s.(ring := s.ring.(cq := cq))
  }

  lemma DeliverRing(s: State)
    requires RingOk(s) && s.ring.cq != [] && K.IsResult(s.ring.cq[0])
    ensures Pending(s.fibers, s.ring.cq[0].userData, s.ring.cq[0].op)
    ensures RingOk(WithCompletions(Deliver(s, s.ring.cq[0]), s.ring.cq[1..]))
  {
    var c := s.ring.cq[0];
    var s' := WithCompletions(Deliver(s, c), s.ring.cq[1..]);
    K.PostedIsCounted(s.ring.cq, 0);
    assert K.Outstanding(s.ring, c.userData, c.op) > 0;
    assert Pending(s.fibers, c.userData, c.op);
    forall user, op ensures K.Outstanding(s'.ring, user, op) == if Pending(s'.fibers, user, op) then 1 else 0 {
      assert K.Outstanding(s.ring, user, op) == if Pending(s.fibers, user, op) then 1 else 0;
    }
    forall i | 0 <= i < |s'.ring.sq| ensures K.CancelIsOwn(s'.ring, i) {
      assert K.CancelIsOwn(s.ring, i);
    }
  }

  /** The oldest completion goes to a live fiber that waits for exactly that operation. */
  lemma DeliverKeeps(s: State)
    requires Inv(s) && s.mode.Polling? && s.ring.cq != [] && K.IsResult(s.ring.cq[0])
    ensures Pending(s.fibers, s.ring.cq[0].userData, s.ring.cq[0].op)
    ensures Inv(WithCompletions(Deliver(s, s.ring.cq[0]), s.ring.cq[1..]))
  {
    var c := s.ring.cq[0];
    var s' := WithCompletions(Deliver(s, c), s.ring.cq[1..]);
    DeliverRing(s);
    assert ParkedOk(s, c.userData) && FlagsOk(s.fibers[c.userData]) && QueueOk(s);
    DeliverMoves(s, c, s');
    hide Inv, ParkedOk, FlagsOk, QueueOk, RingOk, Deliver, Moves;
    MovesKeeps(s, s', c.userData);
  }

  lemma DeliverMoves(s: State, c: K.Cqe, s': State)
    requires QueueOk(s) && s.mode.Polling? && Pending(s.fibers, c.userData, c.op)
    requires ParkedOk(s, c.userData) && FlagsOk(s.fibers[c.userData])
    requires s' == Deliver(s, c).(ring := s'.ring)
    ensures Moves(s, s', c.userData) && ParkedOk(s', c.userData) && FlagsOk(s'.fibers[c.userData]) && QueueOk(s')
  {}

  lemma {:induction false} DeliverAllKeeps(s: State, cs: seq<K.Cqe>)
    requires s.mode.Polling? && s.ring.cq == [] && Inv(WithCompletions(s, cs))
    requires forall c :: c in cs ==> K.IsResult(c)
    ensures Inv(DeliverAll(s, cs)) && DeliverAll(s, cs).mode.Polling? && DeliverAll(s, cs).ring.cq == []
    decreases |cs|
  {
    if cs == [] {
      assert WithCompletions(s, cs) == s;
    } else {
      DeliverKeeps(WithCompletions(s, cs));
      var d := Deliver(s, cs[0]);
      assert WithCompletions(d, cs[1..]) == WithCompletions(Deliver(WithCompletions(s, cs), cs[0]), cs[1..]);
      DeliverAllKeeps(d, cs[1..]);
    }
  }

  lemma {:induction false} OfOperationsCounts(cq: seq<K.Cqe>, user: nat, op: nat)
    ensures K.Posted(K.OfOperations(cq), user, op) == K.Posted(cq, user, op)
    ensures forall c :: c in K.OfOperations(cq) ==> K.IsResult(c)
  {
    if cq != [] {
      OfOperationsCounts(cq[1..], user, op);
    }
  }

  lemma FilteringKeeps(s: State)
    requires Inv(s) && s.mode.Polling?
    ensures Inv(WithCompletions(s, K.OfOperations(s.ring.cq)))
    ensures forall c :: c in K.OfOperations(s.ring.cq) ==> K.IsResult(c)
  {
    var s' := WithCompletions(s, K.OfOperations(s.ring.cq));
    forall user, op ensures K.Outstanding(s'.ring, user, op) == K.Outstanding(s.ring, user, op) {
      OfOperationsCounts(s.ring.cq, user, op);
    }
    OfOperationsCounts(s.ring.cq, 0, 0);
    forall i | 0 <= i < |s'.ring.sq| ensures K.CancelIsOwn(s'.ring, i) {
      assert K.CancelIsOwn(s.ring, i);
    }
    Untouched(s, s');
  }

  lemma ReapKeeps(s: State)
    requires Inv(s) && Enabled(s, Reap)
    ensures Inv(Next(s, Reap))
  {
    hide Numbered, Tree, FlagsOk, ParkedOk, ResultOk, HandlesOk, StacksOk, CancelledBelow;
    var cs := K.OfOperations(s.ring.cq);
    FilteringKeeps(s);
    var e := WithCompletions(s, []);
    assert WithCompletions(e, cs) == WithCompletions(s, cs);
    DeliverAllKeeps(e, cs);
    Untouched(DeliverAll(e, cs), Next(s, Reap));
  }

  /** Applying completions does not touch the ring. */
  lemma {:induction false} ReapedRing(s: State, cs: seq<K.Cqe>)
    ensures DeliverAll(s, cs).ring == s.ring && DeliverAll(s, cs).capacity == s.capacity
    ensures DeliverAll(s, cs).clock == s.clock
    decreases |cs|
  {
    if cs != [] && !s.mode.Faulted? {
      ReapedRing(Deliver(s, cs[0]), cs[1..]);
    }
  }

  // ---------------------------------------------------------------------------------------------
  // Joining
  // ---------------------------------------------------------------------------------------------

  /** `join` parks: the joiner and its target learn of each other. */
  ghost predicate Parks(s: State, s': State, h: Handle) {
    var r, t := s.running, h.slot;
    && r in s.fibers && t in s.fibers && h in s.handles
    && s.mode.Running? && s.fibers[r].continuation.User? && !s.fibers[t].isCompleted
    && s'.fibers.Keys == s.fibers.Keys
    && (forall f :: f in s.fibers ==>
          s'.fibers[f] == s.fibers[f].(
            continuation := if f == r then Join1(h) else s.fibers[f].continuation,
            joinHandle := if f == t then Waiting(Some(r)) else s.fibers[f].joinHandle,
            joiner := if f == t then Some(r) else s.fibers[f].joiner))
    && s' == s.(fibers := s'.fibers, handles := s.handles - {h}, mode := Polling)
  }

  lemma ParksKeepsHandles(s: State, s': State, h: Handle)
    requires HandlesOk(s.fibers, s.handles) && Parks(s, s', h) && FlagsOk(s.fibers[h.slot])
    ensures HandlesOk(s'.fibers, s'.handles)
  {
    var fs, gs := s.fibers, s'.fibers;
    assert HandleOk(fs, h) && TargetOk(fs, h.slot);
    forall f, k | JoinsOn(gs, f, k) ensures JoiningOk(gs, f, k) {
      if f != s.running {
        assert JoinsOn(fs, f, k) && JoiningOk(fs, f, k);
      }
    }
    forall t | t in gs ensures TargetOk(gs, t) {
      assert TargetOk(fs, t);
      if t == h.slot {
        assert JoinsOn(gs, s.running, h);
      }
    }
    forall k | k in s'.handles ensures HandleOk(gs, k) {
      assert HandleOk(fs, k);
    }
  }

  lemma ParksKeepsFiber(s: State, s': State, h: Handle, f: nat)
    requires Parks(s, s', h) && f in s.fibers && ParkedOk(s, f) && FlagsOk(s.fibers[f]) && ResultOk(s, f)
    requires FlagsOk(s.fibers[h.slot]) && QueueOk(s)
    ensures ParkedOk(s', f) && FlagsOk(s'.fibers[f]) && ResultOk(s', f)
  {
    assert f != s.running ==> (Awake(s', f) <==> Awake(s, f));
  }

  lemma ParksKeepsFibers(s: State, s': State, h: Handle)
    requires Inv(s) && Parks(s, s', h)
    ensures forall f :: f in s'.fibers ==> ParkedOk(s', f) && FlagsOk(s'.fibers[f]) && ResultOk(s', f)
  {
    hide ParkedOk, FlagsOk, ResultOk, HandlesOk, RingOk, StacksOk, QueueOk, Tree, Numbered;
    forall f | f in s'.fibers ensures ParkedOk(s', f) && FlagsOk(s'.fibers[f]) && ResultOk(s', f) {
      assert ParkedOk(s, f) && FlagsOk(s.fibers[f]) && ResultOk(s, f) && FlagsOk(s.fibers[h.slot]);
      ParksKeepsFiber(s, s', h, f);
    }
  }

  lemma ParksKeepsRest(s: State, s': State, h: Handle)
    requires Rest(s) && QueueOk(s) && Parks(s, s', h)
    ensures Rest(s') && QueueOk(s')
  {
    hide Numbered, Tree, FlagsOk, ParkedOk, ResultOk, HandlesOk, RingOk, StacksOk, CancelledBelow;
    RestFrame(s, s');
  }

  lemma ParksKeeps(s: State, s': State, h: Handle)
    requires Inv(s) && Parks(s, s', h)
    ensures Inv(s')
  {
    hide Numbered, Tree, QueueOk, FlagsOk, ParkedOk, ResultOk, HandlesOk, RingOk, StacksOk, CancelledBelow;
    assert FlagsOk(s.fibers[h.slot]);
    ParksKeepsHandles(s, s', h);
    ParksKeepsFibers(s, s', h);
    ParksKeepsRest(s, s', h);
  }

  /** The running fiber gives the handle `h` up, out of user code or at the end of a join. */
  function Release(s: State, h: Handle): State
    requires s.running in s.fibers
  {
    DropHandle(WithContinuation(s.(handles := s.handles - {h}), User), h)
  }

  ghost predicate MayRelease(s: State, h: Handle) {
    && s.mode.Running? && s.running in s.fibers
    && ((s.fibers[s.running].continuation.User? && h in s.handles) || JoinsOn(s.fibers, s.running, h))
  }

  /** What remains of `s` when `h` is gone and the slot is kept. */
  ghost predicate LetsGo(s: State, s': State, h: Handle) {
    var r, t := s.running, h.slot;
    && MayRelease(s, h) && t in s.fibers && !s.fibers[t].isCompleted
    && s'.fibers.Keys == s.fibers.Keys
    && (forall f :: f in s.fibers ==>
          s'.fibers[f] == s.fibers[f].(
            continuation := if f == r then User else s.fibers[f].continuation,
            joinHandle := if f == t then Dropped else s.fibers[f].joinHandle,
            joiner := if f == t then None else s.fibers[f].joiner))
    && s' == s.(fibers := s'.fibers, handles := s.handles - {h})
  }

  /** What remains of `s` when `h` is gone and its finished fiber gives up its slot. */
  ghost predicate Frees(s: State, s': State, h: Handle) {
    var r, t := s.running, h.slot;
    && MayRelease(s, h) && t in s.fibers && s.fibers[t].continuation.Finished?
    && s'.fibers.Keys == s.fibers.Keys - {t}
    && (forall f :: f in s.fibers && f != t ==>
          s'.fibers[f] == s.fibers[f].(continuation := if f == r then User else s.fibers[f].continuation))
    && s' == s.(fibers := s'.fibers, handles := s.handles - {h}, stackPool := s.stackPool + [s.fibers[t].stack])
  }

  /** Nobody but the one who consumes `h` refers to its fiber. */
  lemma SoleReference(s: State, h: Handle)
    requires HandlesOk(s.fibers, s.handles) && MayRelease(s, h)
    ensures h.slot in s.fibers && h.slot != 0 && s.fibers[h.slot].stamp == h.stamp
    ensures forall k :: k in s.handles && k != h ==> k.slot != h.slot
    ensures JoinsOn(s.fibers, s.running, h) ==> h !in s.handles
    ensures forall f, k :: JoinsOn(s.fibers, f, k) && k.slot == h.slot ==> f == s.running && k == h
  {
    if JoinsOn(s.fibers, s.running, h) {
      assert JoiningOk(s.fibers, s.running, h);
    } else {
      assert HandleOk(s.fibers, h);
    }
    assert TargetOk(s.fibers, h.slot);
    forall k | k in s.handles && k != h ensures k.slot != h.slot {
      assert HandleOk(s.fibers, k);
    }
    forall f, k | JoinsOn(s.fibers, f, k) && k.slot == h.slot ensures f == s.running && k == h {
      assert JoiningOk(s.fibers, f, k);
    }
    if h in s.handles {
      assert HandleOk(s.fibers, h);
    }
  }

  lemma ReleaseKeepsHandles(s: State, s': State, h: Handle)
    requires HandlesOk(s.fibers, s.handles) && (LetsGo(s, s', h) || Frees(s, s', h))
    requires forall f :: f in s.fibers ==> FlagsOk(s.fibers[f])
    ensures HandlesOk(s'.fibers, s'.handles)
  {
    var fs, gs := s.fibers, s'.fibers;
    SoleReference(s, h);
    forall f, k | JoinsOn(gs, f, k) ensures JoiningOk(gs, f, k) {
      assert JoinsOn(fs, f, k) && JoiningOk(fs, f, k);
    }
    forall t | t in gs ensures TargetOk(gs, t) {
      assert TargetOk(fs, t);
      if t == h.slot {
        assert FlagsOk(fs[t]);
      } else if fs[t].joiner.Some? {
        assert JoinsOn(fs, fs[t].joiner.value, Handle(t, fs[t].stamp));
      }
    }
    forall k | k in s'.handles ensures HandleOk(gs, k) {
      assert HandleOk(fs, k);
    }
  }

  lemma ReleaseKeepsFiber(s: State, s': State, h: Handle, f: nat)
    requires QueueOk(s) && HandlesOk(s.fibers, s.handles) && (LetsGo(s, s', h) || Frees(s, s', h))
    requires f in s.fibers && f in s'.fibers && ParkedOk(s, f) && FlagsOk(s.fibers[f]) && FlagsOk(s.fibers[h.slot])
    ensures ParkedOk(s', f) && FlagsOk(s'.fibers[f])
  {
    SoleReference(s, h);
    match s.fibers[f].continuation {
      case Join1(k) => assert JoinsOn(s.fibers, f, k);
      case Join2(k) => assert JoinsOn(s.fibers, f, k);
      case _ =>
    }
  }

  lemma ReleaseKeepsFibers(s: State, s': State, h: Handle)
    requires Inv(s) && (LetsGo(s, s', h) || Frees(s, s', h))
    ensures forall f :: f in s'.fibers ==> ParkedOk(s', f) && FlagsOk(s'.fibers[f]) && ResultOk(s', f)
  {
    assert FlagsOk(s.fibers[h.slot]);
    forall f | f in s'.fibers ensures ParkedOk(s', f) && FlagsOk(s'.fibers[f]) && ResultOk(s', f) {
      assert ParkedOk(s, f) && FlagsOk(s.fibers[f]) && ResultOk(s, f);
      ReleaseKeepsFiber(s, s', h, f);
    }
  }

  lemma FreesKeepsTree(s: State, s': State, h: Handle)
    requires Tree(s.fibers) && Frees(s, s', h) && h.slot != 0
    requires forall f :: f in s.fibers && s.fibers[f].continuation.Finished? ==> s.fibers[f].children == {}
    ensures Tree(s'.fibers)
  {
    var fs, gs := s.fibers, s'.fibers;
    forall f | Unfinished(gs, f) ensures Linked(gs, f) {
      assert Unfinished(fs, f) && Linked(fs, f);
    }
    forall p, c | p in gs && c in gs[p].children
      ensures Unfinished(gs, p) && Unfinished(gs, c) && c != 0 && gs[c].parent == Some(p)
    {
      assert c in fs[p].children;
    }
  }

  lemma FreesKeepsClosure(s: State, s': State, h: Handle)
    requires Tree(s.fibers) && CancelledBelow(s.fibers) && Frees(s, s', h) && Tree(s'.fibers)
    ensures CancelledBelow(s'.fibers)
  {
    var fs, gs := s.fibers, s'.fibers;
    forall f, g | Unfinished(gs, g) && Below(gs, g, f) && f in gs && gs[f].isCancelled && !gs[f].isCompleted
      ensures gs[g].isCancelled
    {
      BelowFrame(gs, fs, g, f);
    }
  }

  lemma FreesKeepsStacks(s: State, s': State, h: Handle)
    requires StacksOk(s) && Frees(s, s', h)
    ensures StacksOk(s')
  {
    var stack := s.fibers[h.slot].stack;
    assert Owns(s, h.slot, stack);
    assert forall k :: k in s'.stackPool <==> k in s.stackPool || k == stack;
    forall f, k | Owns(s', f, k) ensures k !in s'.stackPool {
      assert Owns(s, f, k) && s.fibers[f].stack != s.fibers[h.slot].stack;
    }
    forall k: nat | k < s'.mapped && k !in s'.stackPool ensures exists f :: Owns(s', f, k) {
      var f :| Owns(s, f, k);
      assert Owns(s', f, k);
    }
    forall f, g | f in s'.fibers && g in s'.fibers && f != g ensures s'.fibers[f].stack != s'.fibers[g].stack {
      assert s.fibers[f].stack != s.fibers[g].stack;
    }
  }

  lemma ReleaseKeepsWork(s: State, s': State, h: Handle)
    requires RingOk(s) && (LetsGo(s, s', h) || Frees(s, s', h))
    ensures RingOk(s')
  {}

  lemma LetsGoKeepsRest(s: State, s': State, h: Handle)
    requires Rest(s) && QueueOk(s) && LetsGo(s, s', h)
    requires FlagsOk(s.fibers[h.slot]) && !s.fibers[s.running].continuation.Finished?
    ensures Rest(s') && QueueOk(s')
  {
    hide Numbered, Tree, FlagsOk, ParkedOk, ResultOk, HandlesOk, RingOk, StacksOk, CancelledBelow;
    RestFrame(s, s');
  }

  lemma LetsGoKeeps(s: State, s': State, h: Handle)
    requires Inv(s) && LetsGo(s, s', h)
    ensures Inv(s')
  {
    hide Numbered, Tree, QueueOk, FlagsOk, ParkedOk, ResultOk, HandlesOk, RingOk, StacksOk, CancelledBelow;
    assert ParkedOk(s, s.running) && FlagsOk(s.fibers[h.slot]);
    LetsGoKeepsRest(s, s', h);
    ReleaseKeepsHandles(s, s', h);
    ReleaseKeepsFibers(s, s', h);
  }

  lemma FreesKeepsQueue(s: State, s': State, h: Handle)
    requires QueueOk(s) && Numbered(s.fibers, s.clock) && Frees(s, s', h) && ParkedOk(s, h.slot)
    ensures QueueOk(s') && Numbered(s'.fibers, s'.clock)
  {}

  lemma FreesKeeps(s: State, s': State, h: Handle)
    requires Inv(s) && Frees(s, s', h)
    ensures Inv(s')
  {
    assert ParkedOk(s, h.slot);
    SoleReference(s, h);
    forall f | f in s.fibers && s.fibers[f].continuation.Finished? ensures s.fibers[f].children == {} {
      assert ParkedOk(s, f);
    }
    FreesKeepsTree(s, s', h);
    FreesKeepsClosure(s, s', h);
    FreesKeepsStacks(s, s', h);
    FreesKeepsQueue(s, s', h);
    ReleaseKeepsHandles(s, s', h);
    ReleaseKeepsFibers(s, s', h);
    ReleaseKeepsWork(s, s', h);
  }

  lemma ReleaseFreesOrLetsGo(s: State, h: Handle)
    requires MayRelease(s, h) && h.slot in s.fibers
    requires s.fibers[h.slot].isCompleted <==> s.fibers[h.slot].continuation.Finished?
    requires !s.fibers[s.running].continuation.Finished?
    ensures if s.fibers[h.slot].isCompleted then Frees(s, Release(s, h), h) else LetsGo(s, Release(s, h), h)
  {}

  lemma ReleaseKeeps(s: State, h: Handle)
    requires Inv(s) && MayRelease(s, h) && h.slot in s.fibers
    requires s.fibers[h.slot].isCompleted ==> s.fibers[h.slot].continuation.Finished?
    ensures Inv(Release(s, h))
  {
    assert FlagsOk(s.fibers[s.running]) && FlagsOk(s.fibers[h.slot]) && ParkedOk(s, s.running);
    ReleaseFreesOrLetsGo(s, h);
    if s.fibers[h.slot].isCompleted {
      FreesKeeps(s, Release(s, h), h);
    } else {
      LetsGoKeeps(s, Release(s, h), h);
    }
  }

  lemma ForgetKeeps(s: State, h: Handle)
    requires Inv(s) && Enabled(s, Forget(h))
    ensures Inv(Next(s, Forget(h)))
  {
    var s' := Next(s, Forget(h));
    forall f | f in s'.fibers ensures ParkedOk(s', f) && ResultOk(s', f) {
      assert ParkedOk(s, f) && ResultOk(s, f);
      assert Awake(s', f) <==> Awake(s, f);
    }
    assert forall f :: Awake(s', f) <==> Awake(s, f);
    StacksFrame(s, s');
  }

  lemma StayingInUserCode(s: State)
    requires s.running in s.fibers && s.fibers[s.running].continuation.User?
    ensures WithContinuation(s, User) == s
  {}

  lemma DropKeeps(s: State, h: Handle)
    requires Inv(s) && Enabled(s, Drop(h)) && Timely(s, Drop(h))
    ensures Inv(Next(s, Drop(h)))
  {
    SoleReference(s, h);
    StayingInUserCode(s.(handles := s.handles - {h}));
    ReleaseKeeps(s, h);
  }

  lemma BeginJoinKeeps(s: State, h: Handle)
    requires Inv(s) && Enabled(s, Join(h)) && Timely(s, Join(h))
    ensures Inv(Next(s, Join(h)))
  {
    var r, t := s.running, h.slot;
    SoleReference(s, h);
    if s.fibers[t].isCompleted || (s.fibers[r].isCancelled && !s.fibers[t].isCancelled) {
      StayingInUserCode(s.(handles := s.handles - {h}));
      ReleaseKeeps(s, h);
    } else {
      BeginJoinParks(s, h);
      ParksKeeps(s, BeginJoin(s, h), h);
    }
  }

  lemma BeginJoinParks(s: State, h: Handle)
    requires Enabled(s, Join(h)) && h.slot in s.fibers && !s.fibers[h.slot].isCompleted
    requires s.fibers[s.running].isCancelled ==> s.fibers[h.slot].isCancelled
    ensures Parks(s, BeginJoin(s, h), h)
  {}

  lemma ParkAgainKeeps(s: State, h: Handle)
    requires Inv(s) && s.mode.Running? && s.running in s.fibers && s.fibers[s.running].continuation == Join1(h)
    requires h.slot in s.fibers && !s.fibers[h.slot].isCompleted && s.fibers[s.running].isCancelled
    ensures Inv(WithContinuation(s, Join2(h)).(mode := Polling))
  {
    var r := s.running;
    var s' := WithContinuation(s, Join2(h)).(mode := Polling);
    ParkAgainKeepsFibers(s, s', h);
    ParkAgainKeepsHandles(s, s', h);
    ParkAgainKeepsRest(s, s', h);
  }

  lemma ParkAgainKeepsRest(s: State, s': State, h: Handle)
    requires Rest(s) && QueueOk(s)
    requires s.mode.Running? && s.running in s.fibers && s.fibers[s.running].continuation == Join1(h)
    requires s' == WithContinuation(s, Join2(h)).(mode := Polling)
    ensures Rest(s') && QueueOk(s')
  {
    hide Numbered, Tree, FlagsOk, ParkedOk, ResultOk, HandlesOk, RingOk, StacksOk, CancelledBelow;
    RestFrame(s, s');
  }

  lemma ParkAgainKeepsFibers(s: State, s': State, h: Handle)
    requires Inv(s) && s.mode.Running? && s.running in s.fibers && s.fibers[s.running].continuation == Join1(h)
    requires h.slot in s.fibers && !s.fibers[h.slot].isCompleted && s.fibers[s.running].isCancelled
    requires s' == WithContinuation(s, Join2(h)).(mode := Polling)
    ensures forall f :: f in s'.fibers ==> ParkedOk(s', f) && FlagsOk(s'.fibers[f]) && ResultOk(s', f)
  {
    assert FlagsOk(s.fibers[h.slot]);
    forall f | f in s'.fibers ensures ParkedOk(s', f) && FlagsOk(s'.fibers[f]) && ResultOk(s', f) {
      assert ParkedOk(s, f) && FlagsOk(s.fibers[f]) && ResultOk(s, f);
      assert f != s.running ==> (Awake(s', f) <==> Awake(s, f));
    }
  }

  lemma ParkAgainKeepsHandles(s: State, s': State, h: Handle)
    requires HandlesOk(s.fibers, s.handles) && s.running in s.fibers && s.fibers[s.running].continuation == Join1(h)
    requires s' == WithContinuation(s, Join2(h)).(mode := Polling)
    ensures HandlesOk(s'.fibers, s'.handles)
  {
    var fs, gs := s.fibers, s'.fibers;
    forall f, k ensures JoinsOn(gs, f, k) <==> JoinsOn(fs, f, k) {}
    forall f, k | JoinsOn(gs, f, k) ensures JoiningOk(gs, f, k) {
      assert JoinsOn(fs, f, k);
    }
    forall t | t in gs ensures TargetOk(gs, t) {
      assert TargetOk(fs, t);
    }
    forall k | k in s'.handles ensures HandleOk(gs, k) {
      assert HandleOk(fs, k);
    }
  }

  /** Returning from the first park of `join`: the assertion that the joiner is cancelled holds. */
  lemma ContinueJoinKeeps(s: State, h: Handle)
    requires Inv(s) && IsParkReturning(s) && s.fibers[s.running].continuation == Join1(h) && Timely(s, Resume)
    ensures Inv(ContinueJoin(s, h))
  {
    var r, t := s.running, h.slot;
    assert JoinsOn(s.fibers, r, h);
    SoleReference(s, h);
    assert ParkedOk(s, r) && FlagsOk(s.fibers[t]);
    assert s.handles - {h} == s.handles;
    if s.fibers[t].isCompleted || !s.fibers[t].isCancelled {
      ReleaseKeeps(s, h);
    } else {
      ParkAgainKeeps(s, h);
    }
  }

  lemma EndJoinKeeps(s: State, h: Handle)
    requires Inv(s) && IsParkReturning(s) && s.fibers[s.running].continuation == Join2(h)
    ensures Inv(DropHandle(WithContinuation(s, User), h))
  {
    assert JoinsOn(s.fibers, s.running, h);
    SoleReference(s, h);
    assert ParkedOk(s, s.running) && FlagsOk(s.fibers[h.slot]);
    assert s.handles - {h} == s.handles;
    ReleaseKeeps(s, h);
  }

  // ---------------------------------------------------------------------------------------------
  // Completing
  // ---------------------------------------------------------------------------------------------

  /** The state in which a fiber that just returned is left: waiting for its children, or going on. */
  function Completed(s: State, outcome: Outcome): State
    requires s.running in s.fibers
  {
    var c := Complete(s, outcome);
    if c.fibers[s.running].children != {} then c.(mode := Polling) else c
  }

  lemma CompletedFiber(s: State, outcome: Outcome, f: nat)
    requires QueueOk(s) && StacksOk(s) && Numbered(s.fibers, s.clock) && Enabled(s, Return(outcome))
    requires f in s.fibers && ParkedOk(s, f) && FlagsOk(s.fibers[f]) && ResultOk(s, f)
    ensures var c := Completed(s, outcome); ParkedOk(c, f) && FlagsOk(c.fibers[f]) && ResultOk(c, f)
  {
    if f != s.running {
      assert Awake(Completed(s, outcome), f) <==> Awake(s, f);
      assert s.fibers[f].stamp != s.fibers[s.running].stamp;
      assert s.fibers[f].stack != s.fibers[s.running].stack;
    }
  }

  lemma CompletedFibers(s: State, outcome: Outcome)
    requires Inv(s) && Enabled(s, Return(outcome))
    ensures var c := Completed(s, outcome);
      forall f :: f in c.fibers ==> ParkedOk(c, f) && FlagsOk(c.fibers[f]) && ResultOk(c, f)
  {
    hide ParkedOk, FlagsOk, ResultOk, HandlesOk, RingOk, StacksOk, QueueOk, Tree, Numbered;
    var c := Completed(s, outcome);
    forall f | f in c.fibers ensures ParkedOk(c, f) && FlagsOk(c.fibers[f]) && ResultOk(c, f) {
      assert ParkedOk(s, f) && FlagsOk(s.fibers[f]) && ResultOk(s, f);
      CompletedFiber(s, outcome, f);
    }
  }

  lemma CompletedHandles(s: State, outcome: Outcome)
    requires HandlesOk(s.fibers, s.handles) && Enabled(s, Return(outcome))
    ensures HandlesOk(Completed(s, outcome).fibers, s.handles)
  {
    var fs, gs := s.fibers, Completed(s, outcome).fibers;
    forall f, k ensures JoinsOn(gs, f, k) <==> JoinsOn(fs, f, k) {}
    forall f, k | JoinsOn(gs, f, k) ensures JoiningOk(gs, f, k) {
      assert JoinsOn(fs, f, k);
    }
    forall t | t in gs ensures TargetOk(gs, t) {
      assert TargetOk(fs, t);
    }
    forall k | k in s.handles ensures HandleOk(gs, k) {
      assert HandleOk(fs, k);
    }
  }

  lemma CompletedIsFramed(s: State, outcome: Outcome)
    requires Enabled(s, Return(outcome)) && FlagsOk(s.fibers[s.running])
    ensures Framed(s, Completed(s, outcome))
  {}

  lemma CompletedQueue(s: State, outcome: Outcome)
    requires QueueOk(s) && Enabled(s, Return(outcome))
    ensures QueueOk(Completed(s, outcome))
  {}

  lemma CompletedRest(s: State, outcome: Outcome)
    requires Rest(s) && QueueOk(s) && Enabled(s, Return(outcome)) && FlagsOk(s.fibers[s.running])
    ensures Rest(Completed(s, outcome)) && QueueOk(Completed(s, outcome))
  {
    hide Rest, QueueOk, Completed;
    CompletedIsFramed(s, outcome);
    CompletedQueue(s, outcome);
    RestFrame(s, Completed(s, outcome));
  }

  lemma CompletedKeeps(s: State, outcome: Outcome)
    requires Inv(s) && Enabled(s, Return(outcome))
    ensures Inv(Completed(s, outcome))
  {
    hide Tree, QueueOk, FlagsOk, ParkedOk, ResultOk, HandlesOk, RingOk, StacksOk, CancelledBelow;
    CompletedFibers(s, outcome);
    CompletedHandles(s, outcome);
    assert FlagsOk(s.fibers[s.running]);
    CompletedRest(s, outcome);
  }

  // ---------------------------------------------------------------------------------------------
  // Finishing
  // ---------------------------------------------------------------------------------------------

  /** The running fiber is past its wait for children. */
  ghost predicate Leaving(s: State) {
    && s.mode.Running? && s.running in s.fibers && s.fibers[s.running].continuation.AwaitChildren?
  }

  /** The running fiber `r`, not the root, has left the tree, woken its joiner, and finished. */
  ghost predicate Leaves(s: State, s': State, p: nat)
    requires s.running in s.fibers && p in s.fibers
  {
    var r, x := s.running, s.fibers[s.running];
    var left := s.fibers[p].children - {r};
    var woken := if x.joiner.Some? then Wake(s.ready, x.joiner.value) else s.ready;
    && p != r && r in s.fibers[p].children
    && s'.fibers.Keys == (if x.joinHandle.Dropped? then s.fibers.Keys - {r} else s.fibers.Keys)
    && (forall f :: f in s.fibers && f != r && f != p ==> s'.fibers[f] == s.fibers[f])
    && s'.fibers[p] == s.fibers[p].(children := left)
    && (!x.joinHandle.Dropped? ==>
          s'.fibers[r] == x.(continuation := Finished,
                             joinHandle := if x.joiner.Some? then Waiting(None) else x.joinHandle))
    && s'.ready == (if s.fibers[p].isCompleted && left == {} then Wake(woken, p) else woken)
    && s'.stackPool == (if x.joinHandle.Dropped? then s.stackPool + [x.stack] else s.stackPool)
    && s' == s.(fibers := s'.fibers, ready := s'.ready, stackPool := s'.stackPool, mode := Polling)
  }

  ghost predicate LeavesFrom(s: State, s': State, p: nat) {
    && Leaving(s) && s.running != 0 && p in s.fibers
    && s.fibers[s.running].children == {} && s.fibers[s.running].parent == Some(p)
    && Leaves(s, s', p)
  }

  lemma LeavesKeepsTree(s: State, s': State, p: nat)
    requires Tree(s.fibers) && LeavesFrom(s, s', p)
    ensures Tree(s'.fibers)
  {
    var fs, gs := s.fibers, s'.fibers;
    forall f | Unfinished(gs, f) ensures Linked(gs, f) {
      assert Unfinished(fs, f) && Linked(fs, f);
    }
    forall q, c | q in gs && c in gs[q].children
      ensures Unfinished(gs, q) && Unfinished(gs, c) && c != 0 && gs[c].parent == Some(q)
    {
      assert c in fs[q].children;
    }
  }

  lemma LeavesKeepsClosure(s: State, s': State, p: nat)
    requires Tree(s.fibers) && CancelledBelow(s.fibers) && Tree(s'.fibers) && LeavesFrom(s, s', p)
    ensures CancelledBelow(s'.fibers)
  {
    var fs, gs := s.fibers, s'.fibers;
    forall f, g | Unfinished(gs, g) && Below(gs, g, f) && f in gs && gs[f].isCancelled && !gs[f].isCompleted
      ensures gs[g].isCancelled
    {
      BelowFrame(gs, fs, g, f);
    }
  }

  lemma LeavesKeepsStacks(s: State, s': State, p: nat)
    requires StacksOk(s) && LeavesFrom(s, s', p)
    ensures StacksOk(s')
  {
    var stack := s.fibers[s.running].stack;
    assert forall f :: f in s'.fibers ==> f in s.fibers && s'.fibers[f].stack == s.fibers[f].stack;
    if s.fibers[s.running].joinHandle.Dropped? {
      assert Owns(s, s.running, stack);
      assert forall k :: k in s'.stackPool <==> k in s.stackPool || k == stack;
      forall f, k | Owns(s', f, k) ensures k !in s'.stackPool {
        assert Owns(s, f, k) && s.fibers[f].stack != s.fibers[s.running].stack;
      }
      forall k: nat | k < s'.mapped && k !in s'.stackPool ensures exists f :: Owns(s', f, k) {
        var f :| Owns(s, f, k);
        assert Owns(s', f, k);
      }
    } else {
      StacksFrame(s, s');
    }
  }

  lemma LeavesKeepsHandles(s: State, s': State, p: nat)
    requires HandlesOk(s.fibers, s.handles) && LeavesFrom(s, s', p)
    ensures HandlesOk(s'.fibers, s'.handles)
  {
    var fs, gs, r := s.fibers, s'.fibers, s.running;
    assert TargetOk(fs, r);
    forall f, k ensures JoinsOn(gs, f, k) <==> JoinsOn(fs, f, k) {}
    forall f, k | JoinsOn(gs, f, k) ensures JoiningOk(gs, f, k) {
      assert JoinsOn(fs, f, k) && JoiningOk(fs, f, k);
    }
    forall t | t in gs ensures TargetOk(gs, t) {
      assert TargetOk(fs, t);
    }
    forall k | k in s'.handles ensures HandleOk(gs, k) {
      assert HandleOk(fs, k);
    }
  }

  lemma LeavesKeepsQueue(s: State, s': State, p: nat)
    requires QueueOk(s) && Numbered(s.fibers, s.clock) && HandlesOk(s.fibers, s.handles) && LeavesFrom(s, s', p)
    ensures QueueOk(s') && Numbered(s'.fibers, s'.clock)
  {
    LeavesKeepsNumbers(s, s', p);
    hide Numbered;
    assert TargetOk(s.fibers, s.running);
  }

  lemma LeavesKeepsNumbers(s: State, s': State, p: nat)
    requires Numbered(s.fibers, s.clock) && LeavesFrom(s, s', p)
    ensures Numbered(s'.fibers, s'.clock)
  {}

  /** Leaving wakes the joiner, and the parent if that one has completed and has no other child. */
  lemma LeavesAwake(s: State, s': State, p: nat)
    requires QueueOk(s) && LeavesFrom(s, s', p)
    ensures forall f :: Awake(s', f) <==>
      || (f != s.running && Awake(s, f))
      || s.fibers[s.running].joiner == Some(f)
      || (f == p && s.fibers[p].isCompleted && s'.fibers[p].children == {})
  {}

  lemma LeavesKeepsFiber(s: State, s': State, p: nat, f: nat)
    requires Tree(s.fibers) && QueueOk(s) && HandlesOk(s.fibers, s.handles) && LeavesFrom(s, s', p)
    requires f in s'.fibers && f in s.fibers && ParkedOk(s, f) && FlagsOk(s.fibers[f])
    ensures ParkedOk(s', f) && FlagsOk(s'.fibers[f])
  {
    var fs := s.fibers;
    LeavesAwake(s, s', p);
    assert TargetOk(fs, s.running);
    match fs[f].continuation {
      case Join1(k) => assert JoinsOn(fs, f, k) && JoiningOk(fs, f, k);
      case Join2(k) => assert JoinsOn(fs, f, k) && JoiningOk(fs, f, k);
      case _ =>
    }
  }

  lemma LeavesKeepsFibers(s: State, s': State, p: nat)
    requires Inv(s) && LeavesFrom(s, s', p)
    ensures forall f :: f in s'.fibers ==> ParkedOk(s', f) && FlagsOk(s'.fibers[f]) && ResultOk(s', f)
  {
    forall f | f in s'.fibers ensures ParkedOk(s', f) && FlagsOk(s'.fibers[f]) && ResultOk(s', f) {
      assert ParkedOk(s, f) && FlagsOk(s.fibers[f]) && ResultOk(s, f);
      LeavesKeepsFiber(s, s', p, f);
    }
  }

  lemma LeavesKeepsRing(s: State, s': State, p: nat)
    requires RingOk(s) && LeavesFrom(s, s', p)
    ensures RingOk(s')
  {}

  lemma LeavesKeeps(s: State, s': State, p: nat)
    requires Inv(s) && LeavesFrom(s, s', p)
    ensures Inv(s')
  {
    LeavesKeepsTree(s, s', p);
    LeavesKeepsClosure(s, s', p);
    LeavesKeepsStacks(s, s', p);
    LeavesKeepsHandles(s, s', p);
    LeavesKeepsQueue(s, s', p);
    LeavesKeepsFibers(s, s', p);
    LeavesKeepsRing(s, s', p);
  }

  lemma FinishRootKeeps(s: State, outcome: Outcome)
    requires Inv(s) && Leaving(s) && s.running == 0
    ensures Inv(Finish(s, outcome)) && Finish(s, outcome).mode.Returned?
  {
    var s' := Finish(s, outcome);
    assert forall f :: Awake(s', f) <==> Awake(s, f);
    forall f | f in s'.fibers ensures ParkedOk(s', f) && ResultOk(s', f) {
      assert ParkedOk(s, f) && ResultOk(s, f);
    }
    FinishRootStacks(s, outcome);
  }

  lemma FinishRootStacks(s: State, outcome: Outcome)
    requires StacksOk(s) && Leaving(s) && s.running == 0
    ensures StacksOk(Finish(s, outcome))
  {
    var s', stack := Finish(s, outcome), s.fibers[0].stack;
    assert Owns(s, 0, stack);
    assert forall k :: k in s'.stackPool <==> k in s.stackPool || k == stack;
    forall f, k | Owns(s', f, k) ensures k !in s'.stackPool {
      assert Owns(s, f, k) && s.fibers[f].stack != s.fibers[0].stack;
    }
    forall k: nat | k < s'.mapped && k !in s'.stackPool ensures exists f :: Owns(s', f, k) {
      var f :| Owns(s, f, k);
      assert Owns(s', f, k);
    }
  }

  lemma LeaveLeaves(s: State, p: nat)
    requires Leaving(s) && p in s.fibers && s.fibers[s.running].parent == Some(p) && p != s.running
    requires s.running in s.fibers[p].children && s.fibers[s.running].joiner.None?
    ensures Leaves(s, Leave(s), p)
  {}

  lemma JoinedLeaveLeaves(s: State, p: nat, outcome: Outcome)
    requires Leaving(s) && p in s.fibers && s.fibers[s.running].parent == Some(p) && p != s.running && s.running != 0
    requires s.running in s.fibers[p].children
    requires s.fibers[s.running].joiner.Some? && s.fibers[s.running].joinHandle == Waiting(s.fibers[s.running].joiner)
    ensures Leaves(s, Finish(s, outcome), p)
  {}

  /** The end of a fiber that waits for no child: neither the waker's nor the parent's `unwrap` can fail. */
  lemma FinishKeeps(s: State, outcome: Outcome)
    requires Inv(s) && Leaving(s)
    ensures Inv(Finish(s, outcome))
  {
    var x := s.fibers[s.running];
    assert TargetOk(s.fibers, s.running);
    if s.running == 0 {
      FinishRootKeeps(s, outcome);
    } else if x.joiner.Some? {
      var p := LeavingHasParent(s);
      JoinedLeaveLeaves(s, p, outcome);
      LeavesKeeps(s, Finish(s, outcome), p);
    } else if outcome.Panic? {
      CancelKeeps(s, 0);
      TreeHasShape(s.fibers);
      LeaveKeeps(CancelTree(s, 0));
    } else {
      LeaveKeeps(s);
    }
  }

  lemma LeavingHasParent(s: State) returns (p: nat)
    requires Tree(s.fibers) && Leaving(s) && s.running != 0 && ParkedOk(s, s.running)
    ensures p in s.fibers && p != s.running && s.fibers[s.running].parent == Some(p)
    ensures s.running in s.fibers[p].children && s.fibers[s.running].children == {}
  {
    assert Linked(s.fibers, s.running);
    p := s.fibers[s.running].parent.value;
  }

  lemma LeaveKeeps(s: State)
    requires Inv(s) && Leaving(s) && s.running != 0 && s.fibers[s.running].joiner.None?
    ensures Inv(Leave(s))
  {
    assert ParkedOk(s, s.running);
    var p := LeavingHasParent(s);
    LeaveLeaves(s, p);
    LeavesKeeps(s, Leave(s), p);
  }

  lemma ReturnKeeps(s: State, outcome: Outcome)
    requires Inv(s) && Enabled(s, Return(outcome))
    ensures Inv(Next(s, Return(outcome)))
  {
    CompletedKeeps(s, outcome);
    var c := Complete(s, outcome);
    if c.fibers[s.running].children == {} {
      FinishKeeps(c, outcome);
    }
  }

  lemma ResumeKeeps(s: State)
    requires Inv(s) && Enabled(s, Resume) && Timely(s, Resume)
    ensures Inv(Next(s, Resume))
  {
    assert ParkedOk(s, s.running);
    match s.fibers[s.running].continuation {
      case Syscall1(op) => ContinueSyscallKeeps(s, op);
      case Syscall2(_) => TakeResultKeeps(s);
      case Join1(h) => ContinueJoinKeeps(s, h);
      case Join2(h) => EndJoinKeeps(s, h);
      case AwaitChildren(outcome) => FinishKeeps(s, outcome);
    }
  }

  lemma CancelActionKeeps(s: State, a: Action)
    requires Inv(s) && Enabled(s, a) && (a.CancelHandle? || a.CancelSelf? || a.CancelPropagating?)
    ensures Inv(Next(s, a))
  {
    match a {
      case CancelHandle(h) =>
        assert HandleOk(s.fibers, h);
        CancelKeeps(s, h.slot);
      case CancelSelf => CancelKeeps(s, s.running);
      case CancelPropagating => CancelKeeps(s, 0);
    }
  }

  // ---------------------------------------------------------------------------------------------
  // All steps
  // ---------------------------------------------------------------------------------------------

  lemma StepKeeps(s: State, a: Action)
    requires Inv(s) && Enabled(s, a) && Timely(s, a)
    ensures Inv(Next(s, a))
  {
    hide Inv;
    match a {
      case Spawn(slot) => SpawnKeeps(s, slot);
      case Drop(h) => DropKeeps(s, h);
      case Forget(h) => ForgetKeeps(s, h);
      case CancelHandle(_) => CancelActionKeeps(s, a);
      case CancelSelf => CancelActionKeeps(s, a);
      case CancelPropagating => CancelActionKeeps(s, a);
      case Yield => YieldKeeps(s);
      case Syscall => SyscallKeeps(s);
      case Join(h) => BeginJoinKeeps(s, h);
      case Return(outcome) => ReturnKeeps(s, outcome);
      case Resume => ResumeKeeps(s);
      case Reap => ReapKeeps(s);
      case Dispatch => DispatchKeeps(s);
      case Block => BlockKeeps(s);
      case Unblock => UnblockKeeps(s);
      case KernelDone(i, result) => KernelDoneKeeps(s, i, result);
    }
  }

  lemma StartRest(capacity: nat)
    ensures Rest(Start(capacity))
  {
    var s := Start(capacity);
    assert Owns(s, 0, 0);
    forall f, g | Unfinished(s.fibers, g) && Below(s.fibers, g, f) ensures f == 0 && g == 0 {
      BelowIsLater(s.fibers, g, f);
    }
  }

  lemma StartIsGood(capacity: nat)
    ensures Inv(Start(capacity))
  {
    StartRest(capacity);
  }
}
