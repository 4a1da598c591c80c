/** When the runtime can be left waiting for nothing: exactly when a join closes a cycle of waits. */
module FiberDeadlock {
  import opened Options
  import opened Fibers
  import opened FiberTree
  import opened FiberMachine
  import opened FiberInvariant
  import opened FiberSteps
  import opened FiberRuns
  import opened FiberTheorems
  import K = Kernel

  // ---------------------------------------------------------------------------------------------
  // Waits
  // ---------------------------------------------------------------------------------------------

  /** `f` cannot finish before `g`: its child, or the unfinished fiber that it joins. */
  ghost predicate Waits(fs: Slab, f: nat, g: nat) {
    && f in fs && g in fs
    && (g in fs[f].children || (Unfinished(fs, g) && JoinsSlot(fs[f].continuation, g)))
  }

  predicate JoinsSlot(p: Point, t: nat) {
    JoinTarget(p).Some? && JoinTarget(p).value.slot == t
  }

  ghost predicate Path(fs: Slab, p: seq<nat>, f: nat, g: nat) {
    && |p| > 0 && p[0] == f && p[|p| - 1] == g
    && forall i :: 0 < i < |p| ==> Waits(fs, p[i - 1], p[i])
  }

  /** Following waits from `f` one may come to `g`. */
  ghost predicate Reaches(fs: Slab, f: nat, g: nat) {
    exists p :: Path(fs, p, f, g)
  }

  ghost predicate HasCycle(fs: Slab) {
    exists f, g :: Waits(fs, f, g) && Reaches(fs, g, f)
  }

  ghost predicate WaitsClimb(fs: Slab, rank: map<nat, nat>) {
    && fs.Keys <= rank.Keys
    && forall f, g {:trigger Waits(fs, f, g)} :: Waits(fs, f, g) ==> rank[f] < rank[g]
  }

  /** The fibers can be ranked such that all waits go up. */
  ghost predicate Acyclic(fs: Slab) {
    exists rank :: WaitsClimb(fs, rank)
  }

  lemma {:induction false} PathClimbs(fs: Slab, rank: map<nat, nat>, p: seq<nat>, f: nat, g: nat)
    requires WaitsClimb(fs, rank) && Path(fs, p, f, g) && f in fs
    ensures g in fs && rank[f] <= rank[g]
    decreases |p|
  {
    if |p| > 1 {
      assert Waits(fs, p[0], p[1]);
      PathClimbs(fs, rank, p[1..], p[1], g);
    }
  }

  lemma AcyclicHasNoCycle(fs: Slab)
    requires Acyclic(fs)
    ensures !HasCycle(fs)
  {
    var rank :| WaitsClimb(fs, rank);
    forall f, g | Waits(fs, f, g) ensures !Reaches(fs, g, f) {
      if p :| Path(fs, p, g, f) {
        PathClimbs(fs, rank, p, g, f);
      }
    }
  }

  lemma ReachesItself(fs: Slab, f: nat)
    ensures Reaches(fs, f, f)
  {
    assert Path(fs, [f], f, f);
  }

  lemma ReachesFurther(fs: Slab, f: nat, g: nat, k: nat)
    requires Reaches(fs, f, g) && Waits(fs, g, k)
    ensures Reaches(fs, f, k)
  {
    var p :| Path(fs, p, f, g);
    assert Path(fs, p + [k], f, k);
  }

  /** The fibers from which waits lead to `f`. */
  ghost function Before(fs: Slab, f: nat): set<nat> {
    set g | g in fs && Reaches(fs, g, f)
  }

  lemma BeforeGrows(fs: Slab, f: nat, g: nat)
    requires Waits(fs, f, g) && !HasCycle(fs)
    ensures |Before(fs, f)| < |Before(fs, g)|
  {
    forall k | k in Before(fs, f) ensures k in Before(fs, g) {
      ReachesFurther(fs, k, f, g);
    }
    ReachesItself(fs, g);
    assert g in Before(fs, g) && g !in Before(fs, f);
    SubsetIsSmaller(Before(fs, f), Before(fs, g) - {g});
  }

  lemma {:induction false} SubsetIsSmaller(a: set<nat>, b: set<nat>)
    requires a <= b
    ensures |a| <= |b|
    decreases a
  {
    if x :| x in a {
      SubsetIsSmaller(a - {x}, b - {x});
    }
  }

  lemma AcyclicExactly(fs: Slab)
    ensures Acyclic(fs) <==> !HasCycle(fs)
  {
    if Acyclic(fs) {
      AcyclicHasNoCycle(fs);
    } else if !HasCycle(fs) {
      var rank := map f | f in fs :: |Before(fs, f)|;
      forall f, g | Waits(fs, f, g) ensures rank[f] < rank[g] {
        BeforeGrows(fs, f, g);
      }
      assert WaitsClimb(fs, rank);
    }
  }

  // ---------------------------------------------------------------------------------------------
  // What a step does to the waits
  // ---------------------------------------------------------------------------------------------

  /** The join will park: its target has not completed, and the joiner is not cancelled alone. */
  predicate JoinParks(s: State, h: Handle) {
    && s.running in s.fibers && h.slot in s.fibers && !s.fibers[h.slot].isCompleted
    && (s.fibers[s.running].isCancelled ==> s.fibers[h.slot].isCancelled)
  }

  /** The action is a join that parks although its target already waits, through others perhaps, for the joiner. */
  ghost predicate ClosesCycle(s: State, a: Action) {
    a.Join? && JoinParks(s, a.handle) && Reaches(s.fibers, a.handle.slot, s.running)
  }

  ghost predicate NoNewWaits(fs: Slab, gs: Slab) {
    forall f, g {:trigger Waits(gs, f, g)} :: Waits(gs, f, g) ==> Waits(fs, f, g)
  }

  lemma FewerWaitsAreAcyclic(fs: Slab, gs: Slab)
    requires Acyclic(fs) && NoNewWaits(fs, gs) && gs.Keys <= fs.Keys
    ensures Acyclic(gs)
  {
    var rank :| WaitsClimb(fs, rank);
    assert WaitsClimb(gs, rank);
  }

  /** No new fiber and no new join: every wait has been there before. */
  lemma OldWaits(s: State, s': State, a: Action)
    requires Tree(s.fibers) && Tree(s'.fibers) && StepShape(s, s', a) && !a.Spawn?
    requires a.Join? && s.running in s'.fibers ==> JoinTarget(s'.fibers[s.running].continuation).None?
    ensures s'.fibers.Keys <= s.fibers.Keys && NoNewWaits(s.fibers, s'.fibers)
  {
    var fs, gs := s.fibers, s'.fibers;
    forall f | f in gs ensures f in fs {}
    forall f, g | Waits(gs, f, g) ensures Waits(fs, f, g) {
      assert FiberShape(fs[f], gs[f], a, f == s.running && f != 0, f == s.running);
      assert FiberShape(fs[g], gs[g], a, g == s.running && g != 0, g == s.running);
      if g in gs[f].children {
        assert Unfinished(fs, g) && Linked(fs, g);
      }
    }
  }

  lemma ReturningJoinKeepsUser(s: State, h: Handle)
    requires Enabled(s, Join(h)) && !JoinParks(s, h)
    ensures s.running in Next(s, Join(h)).fibers ==> Next(s, Join(h)).fibers[s.running].continuation.User?
  {}

  lemma SpawnStaysAcyclic(s: State, slot: nat)
    requires Inv(s) && Enabled(s, Spawn(slot)) && Acyclic(s.fibers)
    ensures Acyclic(Next(s, Spawn(slot)).fibers)
  {
    var fs, gs := s.fibers, Next(s, Spawn(slot)).fibers;
    var rank :| WaitsClimb(fs, rank);
    var more := rank[slot := rank[s.running] + 1];
    TreeHasShape(fs);
    forall f, g | Waits(gs, f, g) ensures more[f] < more[g] {
      SpawnedWaits(s, slot, f, g);
    }
    assert WaitsClimb(gs, more);
  }

  lemma SpawnedWaits(s: State, slot: nat, f: nat, g: nat)
    requires Inv(s) && Shape(s.fibers) && Enabled(s, Spawn(slot)) && Waits(Next(s, Spawn(slot)).fibers, f, g)
    ensures if g == slot then f == s.running else f != slot && Waits(s.fibers, f, g)
  {
    if f != slot && JoinsSlot(s.fibers[f].continuation, g) {
      assert JoinsOn(s.fibers, f, JoinTarget(s.fibers[f].continuation).value);
      assert JoiningOk(s.fibers, f, JoinTarget(s.fibers[f].continuation).value);
    }
  }

  /** After a join that parks, the joiner's one new wait is for its target. */
  lemma ParkedWaits(s: State, s': State, h: Handle, f: nat, g: nat)
    requires Parks(s, s', h) && Unfinished(s.fibers, h.slot)
    ensures Waits(s'.fibers, f, g) <==> Waits(s.fibers, f, g) || (f == s.running && g == h.slot)
  {}

  lemma JoinStaysAcyclic(s: State, s': State, h: Handle)
    requires Parks(s, s', h) && Unfinished(s.fibers, h.slot) && Acyclic(s.fibers)
    requires !Reaches(s.fibers, h.slot, s.running)
    ensures Acyclic(s'.fibers)
  {
    var fs, r, t := s.fibers, s.running, h.slot;
    var rank :| WaitsClimb(fs, rank);
    var lifted := map f | f in fs :: rank[f] + (if Reaches(fs, t, f) then rank[r] + 1 else 0);
    forall f, g | Waits(s'.fibers, f, g) ensures lifted[f] < lifted[g] {
      ParkedWaits(s, s', h, f, g);
      if Waits(fs, f, g) {
        if Reaches(fs, t, f) {
          ReachesFurther(fs, t, f, g);
        }
      } else {
        ReachesItself(fs, t);
      }
    }
    assert WaitsClimb(s'.fibers, lifted);
  }

  lemma JoinClosesCycle(s: State, s': State, h: Handle)
    requires Parks(s, s', h) && Unfinished(s.fibers, h.slot) && Reaches(s.fibers, h.slot, s.running)
    ensures HasCycle(s'.fibers)
  {
    var p :| Path(s.fibers, p, h.slot, s.running);
    forall i | 0 < i < |p| ensures Waits(s'.fibers, p[i - 1], p[i]) {
      ParkedWaits(s, s', h, p[i - 1], p[i]);
    }
    assert Path(s'.fibers, p, h.slot, s.running);
    ParkedWaits(s, s', h, s.running, h.slot);
  }

  lemma ParkingJoinParks(s: State, h: Handle)
    requires Inv(s) && Enabled(s, Join(h)) && JoinParks(s, h)
    ensures Parks(s, Next(s, Join(h)), h) && Unfinished(s.fibers, h.slot)
  {
    assert FlagsOk(s.fibers[h.slot]);
    BeginJoinParks(s, h);
  }

  lemma OthersStayAcyclic(s: State, a: Action)
    requires Inv(s) && Enabled(s, a) && Timely(s, a) && Acyclic(s.fibers)
    requires !a.Spawn? && (a.Join? ==> !JoinParks(s, a.handle))
    ensures Acyclic(Next(s, a).fibers)
  {
    StepKeeps(s, a);
    StepHasShape(s, a);
    if a.Join? {
      ReturningJoinKeepsUser(s, a.handle);
    }
    hide Inv;
    TreesOf(s, Next(s, a));
    OldWaits(s, Next(s, a), a);
    FewerWaitsAreAcyclic(s.fibers, Next(s, a).fibers);
  }

  lemma TreesOf(s: State, s': State)
    requires Inv(s) && Inv(s')
    ensures Tree(s.fibers) && Tree(s'.fibers)
  {}

  /** A step keeps the waits free of cycles if and only if it is not a join that closes one. */
  lemma StepKeepsAcyclicExactly(s: State, a: Action)
    requires Inv(s) && Enabled(s, a) && Timely(s, a) && Acyclic(s.fibers)
    ensures Acyclic(Next(s, a).fibers) <==> !ClosesCycle(s, a)
    ensures HasCycle(Next(s, a).fibers) <==> ClosesCycle(s, a)
  {
    hide Inv;
    if a.Spawn? {
      SpawnStaysAcyclic(s, a.slot);
    } else if a.Join? && JoinParks(s, a.handle) {
      ParkingJoinParks(s, a.handle);
      if ClosesCycle(s, a) {
        JoinClosesCycle(s, Next(s, a), a.handle);
      } else {
        JoinStaysAcyclic(s, Next(s, a), a.handle);
      }
    } else {
      OthersStayAcyclic(s, a);
    }
    if Acyclic(Next(s, a).fibers) {
      AcyclicHasNoCycle(Next(s, a).fibers);
    }
  }

  // ---------------------------------------------------------------------------------------------
  // Deadlock freedom
  // ---------------------------------------------------------------------------------------------

  /** With nobody awake, following the waits from `f` leads to a fiber whose operation is outstanding. */
  lemma {:induction false} SomeOperation(s: State, rank: map<nat, nat>, bound: nat, f: nat) returns (g: nat, op: nat)
    requires Inv(s) && WaitsClimb(s.fibers, rank) && (forall x :: x in s.fibers ==> rank[x] < bound)
    requires Unfinished(s.fibers, f) && forall x :: !Awake(s, x)
    ensures Pending(s.fibers, g, op)
    decreases bound - rank[f]
  {
    ParkedHasSource(s, f);
    match s.fibers[f].continuation {
      case Syscall1(o) => g, op := f, o;
      case Syscall2(o) => g, op := f, o;
      case Join1(h) =>
        assert Waits(s.fibers, f, h.slot);
        g, op := SomeOperation(s, rank, bound, h.slot);
      case Join2(h) =>
        assert Waits(s.fibers, f, h.slot);
        g, op := SomeOperation(s, rank, bound, h.slot);
      case AwaitChildren(_) =>
        var c :| c in s.fibers[f].children;
        assert Unfinished(s.fibers, c) && Waits(s.fibers, f, c);
        g, op := SomeOperation(s, rank, bound, c);
    }
  }

  lemma {:induction false} RankBound(rank: map<nat, nat>, keys: set<nat>) returns (bound: nat)
    requires keys <= rank.Keys
    ensures forall x :: x in keys ==> rank[x] < bound
    decreases keys
  {
    if keys == {} {
      bound := 0;
    } else {
      var k :| k in keys;
      bound := RankBound(rank, keys - {k});
      assert forall x :: x in keys ==> x == k || x in keys - {k};
      bound := if bound <= rank[k] then rank[k] + 1 else bound;
    }
  }

  /** Blocking in `wait_for_completed` without a cycle of waits: the kernel holds an operation that wakes somebody. */
  lemma BlocksOnlyOnWork(s: State)
    requires Inv(s) && Enabled(s, Block) && Acyclic(s.fibers)
    ensures exists f, op :: Pending(s.fibers, f, op) && K.Outstanding(Next(s, Block).ring, f, op) == 1
  {
    var rank :| WaitsClimb(s.fibers, rank);
    var bound := RankBound(rank, s.fibers.Keys);
    var g, op := SomeOperation(s, rank, bound, 0);
    K.SubmitKeeps(s.ring);
    assert Pending(s.fibers, g, op) && K.Outstanding(Next(s, Block).ring, g, op) == 1;
  }

  /** No join of the run closes a cycle of waits. */
  ghost predicate ClosesNone(s: State, acts: seq<Action>)
    decreases |acts|
  {
    acts == [] || (Enabled(s, acts[0]) && !ClosesCycle(s, acts[0]) && ClosesNone(Next(s, acts[0]), acts[1..]))
  }

  /** The waits are free of cycles after every step of the run. */
  ghost predicate StaysAcyclic(s: State, acts: seq<Action>)
    decreases |acts|
  {
    acts == [] ||
    (Enabled(s, acts[0]) && !HasCycle(Next(s, acts[0]).fibers) && StaysAcyclic(Next(s, acts[0]), acts[1..]))
  }

  /** The waits stay free of cycles all along a run if and only if no join of it closes one. */
  lemma {:induction false} RunStaysAcyclicExactly(s: State, acts: seq<Action>)
    requires Inv(s) && TimelyRun(s, acts) && Acyclic(s.fibers)
    ensures StaysAcyclic(s, acts) <==> ClosesNone(s, acts)
    ensures ClosesNone(s, acts) ==> Run(s, acts) && Acyclic(After(s, acts).fibers)
    decreases |acts|
  {
    hide Inv, Acyclic, HasCycle;
    if acts != [] {
      StepKeeps(s, acts[0]);
      StepKeepsAcyclicExactly(s, acts[0]);
      if !ClosesCycle(s, acts[0]) {
        RunStaysAcyclicExactly(Next(s, acts[0]), acts[1..]);
      }
    }
  }

  lemma StartIsAcyclic(capacity: nat)
    ensures Acyclic(Start(capacity).fibers)
  {
    assert WaitsClimb(Start(capacity).fibers, map[0 := 0]);
  }

  /**
   Deadlock freedom: in a run whose joins close no cycle of waits, `process_io` blocks only while an operation
   of a parked fiber is in the kernel's hands.
   */
  lemma DeadlockFreedom(s: State, capacity: nat, acts: seq<Action>)
    requires Reached(s, capacity, acts) && ClosesNone(Start(capacity), acts) && Enabled(s, Block)
    ensures exists f, op :: Pending(s.fibers, f, op) && K.Outstanding(Next(s, Block).ring, f, op) == 1
  {
    ReachedIsGood(s, capacity, acts);
    StartIsGood(capacity);
    StartIsAcyclic(capacity);
    RunStaysAcyclicExactly(Start(capacity), acts);
    BlocksOnlyOnWork(s);
  }

  // ---------------------------------------------------------------------------------------------
  // Joining descendants
  // ---------------------------------------------------------------------------------------------

  /** Whether the action, if it is a join, targets a descendant of the joiner or a fiber that has finished. */
  ghost predicate TargetsDescendant(s: State, a: Action)
    requires Tree(s.fibers)
  {
    a.Join? && Unfinished(s.fibers, a.handle.slot) ==>
      a.handle.slot != s.running && Below(s.fibers, a.handle.slot, s.running)
  }

  ghost predicate DescendingRun(s: State, acts: seq<Action>)
    decreases |acts|
  {
    acts == [] ||
    (&& Enabled(s, acts[0]) && Tree(s.fibers) && TargetsDescendant(s, acts[0])
     && DescendingRun(Next(s, acts[0]), acts[1..]))
  }

  /** All waits are for fibers created later. */
  ghost predicate StampsClimb(fs: Slab) {
    forall f, g {:trigger Waits(fs, f, g)} :: Waits(fs, f, g) ==> fs[f].stamp < fs[g].stamp
  }

  lemma {:induction false} PathIsLater(fs: Slab, p: seq<nat>, f: nat, g: nat)
    requires StampsClimb(fs) && Path(fs, p, f, g) && f in fs
    ensures g in fs && fs[f].stamp <= fs[g].stamp
    decreases |p|
  {
    if |p| > 1 {
      assert Waits(fs, p[0], p[1]);
      PathIsLater(fs, p[1..], p[1], g);
    }
  }

  lemma BelowIsStrictlyLater(fs: Slab, g: nat, f: nat)
    requires Tree(fs) && Unfinished(fs, g) && Below(fs, g, f) && g != f
    ensures Unfinished(fs, f) && fs[f].stamp < fs[g].stamp
  {
    assert Linked(fs, g);
    BelowIsLater(fs, fs[g].parent.value, f);
  }

  lemma NewWaitsClimb(s: State, a: Action)
    requires Inv(s) && Enabled(s, a) && Timely(s, a) && StampsClimb(s.fibers) && TargetsDescendant(s, a)
    ensures StampsClimb(Next(s, a).fibers)
  {
    StepKeeps(s, a);
    StepHasShape(s, a);
    NewWaitsFrame(s, Next(s, a), a);
  }

  lemma NewWaitsFrame(s: State, s': State, a: Action)
    requires Inv(s) && Inv(s') && StepShape(s, s', a) && StampsClimb(s.fibers) && TargetsDescendant(s, a)
    ensures StampsClimb(s'.fibers)
  {
    TreesOf(s, s');
    var fs, gs := s.fibers, s'.fibers;
    forall f, g | Waits(gs, f, g) ensures gs[f].stamp < gs[g].stamp {
      if g in gs[f].children {
        assert Unfinished(gs, g) && Linked(gs, g);
      } else {
        if f in fs && JoinsSlot(fs[f].continuation, g) {
          JoinTargetIsThere(s, f, JoinTarget(fs[f].continuation).value);
        }
        hide Inv;
        JoinWaitClimbs(s, s', a, f, g);
      }
    }
  }

  lemma JoinWaitClimbs(s: State, s': State, a: Action, f: nat, g: nat)
    requires Tree(s.fibers) && StepShape(s, s', a) && StampsClimb(s.fibers) && TargetsDescendant(s, a)
    requires f in s'.fibers && Unfinished(s'.fibers, g) && JoinsSlot(s'.fibers[f].continuation, g)
    requires f in s.fibers && JoinsSlot(s.fibers[f].continuation, g) ==> g in s.fibers
    ensures s'.fibers[f].stamp < s'.fibers[g].stamp
  {
    var fs, gs := s.fibers, s'.fibers;
    assert f in fs;
    assert FiberShape(fs[f], gs[f], a, f == s.running && f != 0, f == s.running);
    if JoinsSlot(fs[f].continuation, g) {
      assert FiberShape(fs[g], gs[g], a, g == s.running && g != 0, g == s.running);
      assert Waits(fs, f, g);
    } else {
      TargetClimbs(s, s', JoinTarget(gs[f].continuation).value);
    }
  }

  lemma JoinTargetIsThere(s: State, f: nat, h: Handle)
    requires Inv(s) && f in s.fibers && JoinTarget(s.fibers[f].continuation) == Some(h)
    ensures h.slot in s.fibers
  {
    assert JoinsOn(s.fibers, f, h) && JoiningOk(s.fibers, f, h);
  }

  lemma TargetClimbs(s: State, s': State, h: Handle)
    requires Tree(s.fibers) && StepShape(s, s', Join(h)) && TargetsDescendant(s, Join(h))
    requires Unfinished(s'.fibers, h.slot) && s.running in s.fibers && s.running in s'.fibers
    ensures s'.fibers[s.running].stamp < s'.fibers[h.slot].stamp
  {
    var fs, gs, r, t := s.fibers, s'.fibers, s.running, h.slot;
    assert FiberShape(fs[r], gs[r], Join(h), r != 0, true);
    assert FiberShape(fs[t], gs[t], Join(h), t == r && t != 0, t == r);
    BelowIsStrictlyLater(fs, t, r);
  }

  lemma DescendantClosesNone(s: State, a: Action)
    requires Inv(s) && Enabled(s, a) && StampsClimb(s.fibers) && TargetsDescendant(s, a)
    ensures !ClosesCycle(s, a)
  {
    if ClosesCycle(s, a) {
      ParkingJoinParks(s, a.handle);
      var p :| Path(s.fibers, p, a.handle.slot, s.running);
      PathIsLater(s.fibers, p, a.handle.slot, s.running);
      BelowIsStrictlyLater(s.fibers, a.handle.slot, s.running);
    }
  }

  lemma {:induction false} DescendingRunClosesNone(s: State, acts: seq<Action>)
    requires Inv(s) && TimelyRun(s, acts) && DescendingRun(s, acts) && StampsClimb(s.fibers)
    ensures ClosesNone(s, acts)
    decreases |acts|
  {
    if acts != [] {
      StepKeeps(s, acts[0]);
      DescendantClosesNone(s, acts[0]);
      NewWaitsClimb(s, acts[0]);
      DescendingRunClosesNone(Next(s, acts[0]), acts[1..]);
    }
  }

  /** A run whose joins target descendants of the joiner closes no cycle, so it is free of deadlocks. */
  lemma DescendantJoinsAreSafe(capacity: nat, acts: seq<Action>)
    requires TimelyRun(Start(capacity), acts) && DescendingRun(Start(capacity), acts)
    ensures ClosesNone(Start(capacity), acts)
  {
    StartIsGood(capacity);
    DescendingRunClosesNone(Start(capacity), acts);
  }

  // ---------------------------------------------------------------------------------------------
  // Why cycles matter
  // ---------------------------------------------------------------------------------------------

  /**
   The fibers of `c` keep each other: each has a child among them, or joins one of them and, unless it
   waits in the second park already, has not been cancelled.
   */
  ghost predicate KeepEachOther(fs: Slab, c: set<nat>) {
    forall f {:trigger f in c} :: f in c ==> Unfinished(fs, f) && (HasChildIn(fs, f, c) || JoinsIn(fs, f, c))
  }

  ghost predicate HasChildIn(fs: Slab, f: nat, c: set<nat>)
    requires f in fs
  {
    exists g :: g in c && g in fs[f].children
  }

  ghost predicate JoinsIn(fs: Slab, f: nat, c: set<nat>)
    requires f in fs
  {
    && JoinTarget(fs[f].continuation).Some? && JoinTarget(fs[f].continuation).value.slot in c
    && (fs[f].continuation.Join1? ==> !fs[f].isCancelled)
  }

  /** The step cancels no fiber of `c` that is in the first park of a join. */
  ghost predicate SparesJoins(s: State, a: Action, c: set<nat>)
    requires Enabled(s, a)
  {
    forall f :: f in c && f in s.fibers && s.fibers[f].continuation.Join1? && f in Next(s, a).fibers ==>
      Next(s, a).fibers[f].isCancelled == s.fibers[f].isCancelled
  }

  /** Only the running fiber moves on. */
  ghost predicate OnlyRunningMoves(s: State, s': State) {
    forall f :: Unfinished(s.fibers, f) && !(s.mode.Running? && f == s.running) ==>
      f in s'.fibers && s'.fibers[f].continuation == s.fibers[f].continuation
  }

  lemma LeaveMovesRunning(s: State)
    requires s.running in s.fibers && s.mode.Running?
    ensures OnlyRunningMoves(s, Leave(s))
  {}

  /** A change that leaves all continuations alone, and then a step. */
  lemma MovesRunningAfter(s: State, m: State, s': State)
    requires m.fibers.Keys == s.fibers.Keys && m.mode == s.mode && m.running == s.running
    requires forall f :: f in s.fibers ==> m.fibers[f].continuation == s.fibers[f].continuation
    requires OnlyRunningMoves(m, s')
    ensures OnlyRunningMoves(s, s')
  {}

  lemma FinishMovesRunning(s: State, outcome: Outcome)
    requires s.running in s.fibers && s.mode.Running?
    ensures OnlyRunningMoves(s, Finish(s, outcome))
  {
    hide Leave;
    var x := s.fibers[s.running];
    if s.running != 0 && x.joinHandle != Waiting(None) {
      var m :=
        if x.joinHandle.Waiting? then
          s.(fibers := s.fibers[s.running := x.(joinHandle := Waiting(None))],
             ready := Wake(s.ready, x.joinHandle.waker.value))
        else if outcome.Panic? then CancelTree(s, 0) else s;
      if !m.mode.Faulted? {
        LeaveMovesRunning(m);
        MovesRunningAfter(s, m, Leave(m));
      }
    }
  }

  lemma DropMovesRunning(s: State, h: Handle)
    requires h.slot in s.fibers && s.fibers[h.slot].isCompleted ==> s.fibers[h.slot].continuation.Finished?
    ensures OnlyRunningMoves(s, DropHandle(s, h))
  {}

  lemma JoinMovesRunning(s: State, a: Action)
    requires Enabled(s, a) && Timely(s, a) && (a.Drop? || a.Join? || a.Resume?)
    requires a.Resume? ==> JoinTarget(s.fibers[s.running].continuation).Some?
    ensures OnlyRunningMoves(s, Next(s, a))
  {
    if a.Resume? {
      var h := JoinTarget(s.fibers[s.running].continuation).value;
      DropMovesRunning(WithContinuation(s, User), h);
    } else {
      DropMovesRunning(s.(handles := s.handles - {a.handle}), a.handle);
    }
    hide DropHandle;
  }

  lemma ReturnMovesRunning(s: State, outcome: Outcome)
    requires Enabled(s, Return(outcome))
    ensures OnlyRunningMoves(s, Next(s, Return(outcome)))
  {
    FinishMovesRunning(Complete(s, outcome), outcome);
  }

  lemma ReapMovesNone(s: State)
    requires Enabled(s, Reap)
    ensures OnlyRunningMoves(s, Next(s, Reap))
  {
    DeliverAllResults(s.(ring := s.ring.(cq := [])), K.OfOperations(s.ring.cq));
    hide DeliverAll;
  }

  lemma OthersMoveRunning(s: State, a: Action)
    requires Enabled(s, a) && !a.Drop? && !a.Join? && !a.Return? && !a.Resume?
    ensures OnlyRunningMoves(s, Next(s, a))
  {
    hide ReapCompleted;
    if a.Reap? {
      ReapMovesNone(s);
    }
  }

  lemma StepMovesRunning(s: State, a: Action)
    requires Enabled(s, a) && Timely(s, a)
    ensures OnlyRunningMoves(s, Next(s, a))
  {
    match a {
      case Drop(_) => JoinMovesRunning(s, a);
      case Join(_) => JoinMovesRunning(s, a);
      case Return(outcome) => ReturnMovesRunning(s, outcome);
      case Resume =>
        match s.fibers[s.running].continuation {
          case Join1(_) => JoinMovesRunning(s, a);
          case Join2(_) => JoinMovesRunning(s, a);
          case AwaitChildren(outcome) => FinishMovesRunning(s, outcome);
          case _ =>
        }
      case _ => OthersMoveRunning(s, a);
    }
  }

  /** A fiber that joins inside `c` is not about to run. */
  lemma KeptJoinerSleeps(s: State, c: set<nat>, f: nat)
    requires Inv(s) && KeepEachOther(s.fibers, c) && f in c && JoinsIn(s.fibers, f, c)
    ensures !Awake(s, f)
  {
    assert ParkedOk(s, f);
  }

  lemma KeptFiberStays(s: State, s': State, a: Action, c: set<nat>, f: nat)
    requires Inv(s) && StepShape(s, s', a) && OnlyRunningMoves(s, s') && KeepEachOther(s.fibers, c) && f in c
    ensures Unfinished(s'.fibers, f)
  {
    if s.mode.Running? && f == s.running {
      if JoinsIn(s.fibers, f, c) {
        KeptJoinerSleeps(s, c, f);
      }
      assert s.fibers[f].children != {};
      if f in s'.fibers {
        assert FiberShape(s.fibers[f], s'.fibers[f], a, f != 0, true);
      }
    }
  }

  lemma KeptParentIsKept(s: State, s': State, a: Action, f: nat, g: nat)
    requires Tree(s.fibers) && Tree(s'.fibers) && StepShape(s, s', a)
    requires f in s.fibers && g in s.fibers[f].children && Unfinished(s'.fibers, g)
    ensures f in s'.fibers && g in s'.fibers[f].children
  {
    assert Unfinished(s.fibers, g);
    assert FiberShape(s.fibers[g], s'.fibers[g], a, g == s.running && g != 0, g == s.running);
    assert Linked(s'.fibers, g);
  }

  lemma KeptJoinerIsKept(s: State, s': State, c: set<nat>, f: nat)
    requires f in s.fibers && f in s'.fibers && JoinsIn(s.fibers, f, c) && !Awake(s, f)
    requires OnlyRunningMoves(s, s')
    requires s.fibers[f].continuation.Join1? ==> s'.fibers[f].isCancelled == s.fibers[f].isCancelled
    ensures JoinsIn(s'.fibers, f, c)
  {}

  lemma KeptFiberIsKept(s: State, s': State, a: Action, c: set<nat>, f: nat)
    requires f in s.fibers && f in s'.fibers && (forall g {:trigger g in c} :: g in c ==> Unfinished(s'.fibers, g))
    requires HasChildIn(s.fibers, f, c) || (JoinsIn(s.fibers, f, c) && !Awake(s, f))
    requires s.fibers[f].continuation.Join1? ==> s'.fibers[f].isCancelled == s.fibers[f].isCancelled
    requires Tree(s.fibers) && Tree(s'.fibers) && StepShape(s, s', a) && OnlyRunningMoves(s, s')
    ensures HasChildIn(s'.fibers, f, c) || JoinsIn(s'.fibers, f, c)
  {
    hide Tree, StepShape, OnlyRunningMoves, Awake;
    if HasChildIn(s.fibers, f, c) {
      var g :| g in c && g in s.fibers[f].children;
      KeptParentIsKept(s, s', a, f, g);
    } else {
      KeptJoinerIsKept(s, s', c, f);
    }
  }

  /** Fibers go on keeping each other until one of them is cancelled in the first park of a join. */
  lemma StepKeepsKept(s: State, a: Action, c: set<nat>)
    requires Inv(s) && Enabled(s, a) && Timely(s, a) && KeepEachOther(s.fibers, c) && SparesJoins(s, a, c)
    ensures KeepEachOther(Next(s, a).fibers, c)
  {
    var s' := Next(s, a);
    StepKeeps(s, a);
    StepHasShape(s, a);
    StepMovesRunning(s, a);
    TreesOf(s, s');
    hide Inv, Next, StepShape, Tree;
    forall f | f in c ensures Unfinished(s'.fibers, f) {
      KeptFiberStays(s, s', a, c, f);
    }
    forall f | f in c ensures HasChildIn(s'.fibers, f, c) || JoinsIn(s'.fibers, f, c) {
      if JoinsIn(s.fibers, f, c) {
        KeptJoinerSleeps(s, c, f);
      }
      KeptFiberIsKept(s, s', a, c, f);
    }
  }

  ghost predicate SparingRun(s: State, acts: seq<Action>, c: set<nat>)
    decreases |acts|
  {
    acts == [] || (Enabled(s, acts[0]) && SparesJoins(s, acts[0], c) && SparingRun(Next(s, acts[0]), acts[1..], c))
  }

  lemma {:induction false} RunKeepsKept(s: State, acts: seq<Action>, c: set<nat>)
    requires Inv(s) && TimelyRun(s, acts) && KeepEachOther(s.fibers, c) && SparingRun(s, acts, c)
    ensures Run(s, acts) && KeepEachOther(After(s, acts).fibers, c)
    decreases |acts|
  {
    hide Inv, KeepEachOther;
    if acts != [] {
      StepKeeps(s, acts[0]);
      StepKeepsKept(s, acts[0], c);
      RunKeepsKept(Next(s, acts[0]), acts[1..], c);
    }
  }

  /** The joins that the fibers of a path are in are not cancelled. */
  ghost predicate JoinsUncancelled(fs: Slab, c: set<nat>) {
    forall f :: f in c && f in fs && fs[f].continuation.Join1? ==> !fs[f].isCancelled
  }

  function Members(p: seq<nat>): set<nat> {
    set f | f in p
  }

  lemma PathMemberIsKept(fs: Slab, c: set<nat>, f: nat, g: nat)
    requires Tree(fs) && f in c && g in c && JoinsUncancelled(fs, c) && Waits(fs, f, g)
    requires fs[f].continuation.Finished? ==> fs[f].children == {}
    ensures Unfinished(fs, f) && (HasChildIn(fs, f, c) || JoinsIn(fs, f, c))
  {}

  lemma CycleIsKept(s: State, s': State, h: Handle, p: seq<nat>)
    requires Inv(s) && Inv(s') && Parks(s, s', h) && Path(s.fibers, p, h.slot, s.running)
    requires Unfinished(s.fibers, h.slot) && JoinsUncancelled(s'.fibers, Members(p))
    ensures KeepEachOther(s'.fibers, Members(p))
  {
    TreesOf(s, s');
    hide Inv, Parks, Waits, HasChildIn, JoinsIn, JoinsUncancelled;
    forall i | 0 <= i < |p|
      ensures Unfinished(s'.fibers, p[i])
      ensures HasChildIn(s'.fibers, p[i], Members(p)) || JoinsIn(s'.fibers, p[i], Members(p))
    {
      var g := if i == |p| - 1 then p[0] else p[i + 1];
      assert p[i] in Members(p) && g in Members(p);
      ParkedWaits(s, s', h, p[i], g);
      NotFinishedOrChildless(s', p[i]);
      PathMemberIsKept(s'.fibers, Members(p), p[i], g);
    }
  }

  lemma NotFinishedOrChildless(s: State, f: nat)
    requires Inv(s)
    ensures f in s.fibers && s.fibers[f].continuation.Finished? ==> s.fibers[f].children == {}
  {
    if f in s.fibers {
      assert ParkedOk(s, f);
    }
  }

  /**
   A join that closes a cycle of waits, none of its joins being cancelled: unless one of them is cancelled in its first
   park later, no fiber on the cycle ever finishes, and so the join never returns.
   */
  lemma CycleNeverFinishes(s: State, h: Handle, p: seq<nat>, acts: seq<Action>)
    requires Inv(s) && Enabled(s, Join(h)) && JoinParks(s, h) && Path(s.fibers, p, h.slot, s.running)
    requires JoinsUncancelled(Next(s, Join(h)).fibers, Members(p))
    requires TimelyRun(Next(s, Join(h)), acts) && SparingRun(Next(s, Join(h)), acts, Members(p))
    ensures ClosesCycle(s, Join(h)) && Run(Next(s, Join(h)), acts)
    ensures forall f :: f in p ==> Unfinished(After(Next(s, Join(h)), acts).fibers, f)
  {
    var c, s' := Members(p), Next(s, Join(h));
    ParkingJoinParks(s, h);
    hide Inv, Next, Parks, KeepEachOther;
    assert Timely(s, Join(h));
    StepKeeps(s, Join(h));
    CycleIsKept(s, s', h, p);
    RunKeepsKept(s', acts, c);
    KeptAreUnfinished(After(s', acts).fibers, c);
  }

  lemma KeptAreUnfinished(fs: Slab, c: set<nat>)
    requires KeepEachOther(fs, c)
    ensures forall f :: f in c ==> Unfinished(fs, f)
  {}
}
