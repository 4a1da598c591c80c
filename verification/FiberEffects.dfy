/** What each operation does to the fibers, said of whole steps of the machine. */
module FiberEffects {
  import opened Options
  import opened Fibers
  import opened FiberTree
  import opened FiberMachine
  import opened FiberInvariant
  import opened FiberSteps
  import opened FiberRuns
  import opened FiberTheorems
  import opened Sequences
  import K = Kernel

  // ---------------------------------------------------------------------------------------------
  // Cancelling
  // ---------------------------------------------------------------------------------------------

  predicate IsCancel(a: Action) {
    a.CancelHandle? || a.CancelSelf? || a.CancelPropagating?
  }

  /** The fiber that a cancellation names: the handle's, the caller, or the root. */
  function Named(s: State, a: Action): nat {
    match a
    case CancelHandle(h) => h.slot
    case CancelSelf => s.running
    case _ => 0
  }

  /** `g` is an unfinished fiber in the subtree of `t`. */
  ghost predicate InSubtree(fs: Slab, g: nat, t: nat) {
    Tree(fs) && Unfinished(fs, g) && Below(fs, g, t)
  }

  /** The cancellation flags exactly the subtree of `t`, wakes who needs to know, and does nothing else. */
  ghost predicate CancelsSubtree(s: State, s': State, t: nat) {
    && s'.fibers.Keys == s.fibers.Keys
    && (forall f :: f in s.fibers ==>
          && s'.fibers[f] == s.fibers[f].(isCancelled := s'.fibers[f].isCancelled)
          && (s'.fibers[f].isCancelled <==> s.fibers[f].isCancelled || InSubtree(s.fibers, f, t)))
    && s' == s.(fibers := s'.fibers, ready := s'.ready)
    && s.ready <= s'.ready
    && var added := s'.ready[|s.ready|..];
    && NoDuplicates(added)
    && (forall f :: f in added <==>
          InSubtree(s.fibers, f, t) && !s.fibers[f].isCancelled && f != s.running && f !in s.ready)
    && InVisitOrder(s.fibers, added)
  }

  /**
   Each of the three public cancellations flags exactly the subtree it names, puts those of it that were neither
   cancelled, nor running, nor queued at the end of the ready queue, in the order of the visit, and does nothing else.
   */
  lemma CancelsWhatItNames(s: State, capacity: nat, acts: seq<Action>, h: Handle)
    requires Reached(s, capacity, acts)
    ensures Enabled(s, CancelHandle(h)) ==> CancelsSubtree(s, Next(s, CancelHandle(h)), h.slot)
    ensures Enabled(s, CancelSelf) ==> CancelsSubtree(s, Next(s, CancelSelf), s.running)
    ensures Enabled(s, CancelPropagating) ==> CancelsSubtree(s, Next(s, CancelPropagating), 0)
  {
    hide Inv, Next, CancelsSubtree;
    ReachedIsGood(s, capacity, acts);
    if Enabled(s, CancelHandle(h)) {
      CancelsNamed(s, CancelHandle(h));
    }
    if Enabled(s, CancelSelf) {
      CancelsNamed(s, CancelSelf);
    }
    if Enabled(s, CancelPropagating) {
      CancelsNamed(s, CancelPropagating);
    }
  }

  lemma CancelsNamed(s: State, a: Action)
    requires Inv(s) && Enabled(s, a) && IsCancel(a)
    ensures CancelsSubtree(s, Next(s, a), Named(s, a))
  {
    hide Inv, Next, CancelTree;
    var t := Named(s, a);
    NamedIsThere(s, a);
    if Unfinished(s.fibers, t) {
      UnfinishedSubtree(s, t);
    } else {
      CancellingFinished(s, t);
      TreeHasShape(s.fibers);
      assert s.ready[|s.ready|..] == [];
    }
  }

  lemma UnfinishedSubtree(s: State, t: nat)
    requires Tree(s.fibers) && Unfinished(s.fibers, t)
    ensures CancelsSubtree(s, CancelTree(s, t), t)
  {
    hide CancelTree, Tree, Shape, PreOrder, SubsequenceOf, InVisitOrder;
    CancelExactly(s, t);
    assert s.ready <= CancelTree(s, t).ready;
    PreOrderIsOrdered(s.fibers, t);
    SubsequenceInOrder(s.fibers, CancelTree(s, t).ready[|s.ready|..], PreOrder(s.fibers, t));
  }

  lemma {:induction false} SubsequenceInOrder(fs: Slab, a: seq<nat>, b: seq<nat>)
    requires SubsequenceOf(a, b) && InVisitOrder(fs, b)
    ensures InVisitOrder(fs, a)
    decreases |b|
  {
    hide ComesFirst;
    if a != [] {
      forall i, j | 0 <= i < j < |b| - 1 ensures ComesFirst(fs, b[1..][i], b[1..][j]) {
        assert b[1..][i] == b[i + 1] && b[1..][j] == b[j + 1];
      }
      if a[0] == b[0] && SubsequenceOf(a[1..], b[1..]) {
        SubsequenceInOrder(fs, a[1..], b[1..]);
        forall h | h in a[1..] ensures ComesFirst(fs, a[0], h) {
          SubsequenceMembers(a[1..], b[1..]);
          var k :| 0 <= k < |b| - 1 && b[1..][k] == h;
          assert b[k + 1] == h;
        }
        InVisitOrderConcat(fs, [a[0]], a[1..]);
        assert a == [a[0]] + a[1..];
      } else {
        SubsequenceInOrder(fs, a, b[1..]);
      }
    }
  }

  lemma {:induction false} SubsequenceMembers(a: seq<nat>, b: seq<nat>)
    requires SubsequenceOf(a, b)
    ensures forall x :: x in a ==> x in b
    decreases |b|
  {
    if a != [] {
      assert a == [a[0]] + a[1..];
      if a[0] == b[0] && SubsequenceOf(a[1..], b[1..]) {
        SubsequenceMembers(a[1..], b[1..]);
      } else {
        SubsequenceMembers(a, b[1..]);
      }
    }
  }

  lemma NamedIsThere(s: State, a: Action)
    requires Inv(s) && Enabled(s, a) && IsCancel(a)
    ensures Named(s, a) in s.fibers && Next(s, a) == CancelTree(s, Named(s, a))
    ensures Tree(s.fibers)
  {
    if a.CancelHandle? {
      assert HandleOk(s.fibers, a.handle);
    }
  }

  lemma CancellingFinished(s: State, t: nat)
    requires Inv(s) && s.mode.Running? && t in s.fibers && s.fibers[t].continuation.Finished?
    ensures CancelTree(s, t) == s
    ensures forall f :: !InSubtree(s.fibers, f, t)
  {
    assert FlagsOk(s.fibers[t]);
    CancelledAgain(s, t);
    forall f ensures !InSubtree(s.fibers, f, t) {
      if InSubtree(s.fibers, f, t) {
        BelowIsLater(s.fibers, f, t);
      }
    }
  }

  // ---------------------------------------------------------------------------------------------
  // The flags, through all steps
  // ---------------------------------------------------------------------------------------------

  /** The running fiber reaches the end of its trampoline with this outcome. */
  predicate Ends(s: State, a: Action, outcome: Outcome) {
    && s.mode.Running? && s.running in s.fibers
    && ((a == Return(outcome) && s.fibers[s.running].children == {})
        || (a == Resume && s.fibers[s.running].continuation == AwaitChildren(outcome)))
  }

  /** A spawned fiber ends with a panic that nobody is waiting for. */
  predicate PanicsUnjoined(s: State, a: Action) {
    Ends(s, a, Panic) && s.running != 0 && !s.fibers[s.running].joinHandle.Waiting?
  }

  /** Only `f`'s own flags change, and only from false to true. */
  ghost predicate SameFlags(s: State, s': State) {
    forall f :: f in s.fibers && f in s'.fibers ==>
      s'.fibers[f].isCancelled == s.fibers[f].isCancelled && s'.fibers[f].isCompleted == s.fibers[f].isCompleted
  }

  lemma SameFlagsCompose(s: State, m: State, s': State)
    requires SameFlags(s, m) && SameFlags(m, s') && s'.fibers.Keys <= m.fibers.Keys
    ensures SameFlags(s, s')
  {}

  lemma LeaveSameFlags(s: State)
    requires s.running in s.fibers
    ensures SameFlags(s, Leave(s)) && Leave(s).fibers.Keys <= s.fibers.Keys
  {}

  lemma DropSameFlags(s: State, h: Handle)
    ensures SameFlags(s, DropHandle(s, h)) && DropHandle(s, h).fibers.Keys <= s.fibers.Keys
  {}

  /** Unless it is a panic without a joiner, the end of a fiber cancels nobody. */
  lemma QuietFinishSameFlags(s: State, outcome: Outcome)
    requires s.running in s.fibers
    requires outcome.Panic? ==> s.running == 0 || s.fibers[s.running].joinHandle.Waiting?
    ensures SameFlags(s, Finish(s, outcome)) && Finish(s, outcome).fibers.Keys <= s.fibers.Keys
  {
    hide Leave;
    var x := s.fibers[s.running];
    if s.running != 0 && x.joinHandle != Waiting(None) {
      var m :=
        if x.joinHandle.Waiting? then
          s.(fibers := s.fibers[s.running := x.(joinHandle := Waiting(None))],
             ready := Wake(s.ready, x.joinHandle.waker.value))
        else s;
      LeaveSameFlags(m);
      SameFlagsCompose(s, m, Leave(m));
    }
  }

  lemma ConsumeSameFlags(s: State, h: Handle, a: Action)
    requires Enabled(s, a) && (a == Drop(h) || a == Join(h))
    ensures SameFlags(s, Next(s, a))
  {
    hide DropHandle;
    DropSameFlags(s.(handles := s.handles - {h}), h);
  }

  lemma ResumedJoinSameFlags(s: State, h: Handle)
    requires Enabled(s, Resume) && JoinTarget(s.fibers[s.running].continuation) == Some(h)
    ensures SameFlags(s, Next(s, Resume))
  {
    hide DropHandle;
    var m := WithContinuation(s, User);
    DropSameFlags(m, h);
    SameFlagsCompose(s, m, DropHandle(m, h));
  }

  lemma OthersSameFlags(s: State, a: Action)
    requires Enabled(s, a) && !IsCancel(a) && !a.Drop? && !a.Join? && !a.Return? && !a.Resume?
    ensures SameFlags(s, Next(s, a))
  {
    hide ReapCompleted;
    if a.Reap? {
      ReapSameFlags(s);
    }
  }

  lemma ReapSameFlags(s: State)
    requires Enabled(s, Reap)
    ensures SameFlags(s, Next(s, Reap))
  {
    DeliverAllResults(s.(ring := s.ring.(cq := [])), K.OfOperations(s.ring.cq));
    hide DeliverAll;
  }

  /** The end of a spawned fiber by a panic that nobody waits for: everybody left is cancelled, and knows of it. */
  ghost predicate AllCancelled(s: State, s': State) {
    && (forall f :: Unfinished(s'.fibers, f) ==> f in s.fibers && s'.fibers[f].isCancelled)
    && (forall f :: Unfinished(s'.fibers, f) && f in s.fibers && !s.fibers[f].isCancelled ==> f in s'.ready)
    && (forall f :: f in s'.fibers && f != s.running ==>
          f in s.fibers && s'.fibers[f].isCompleted == s.fibers[f].isCompleted)
  }

  lemma LeaveSparesOthers(s: State)
    requires s.running in s.fibers
    ensures forall f :: f in Leave(s).fibers && f != s.running ==>
      f in s.fibers && Leave(s).fibers[f].continuation == s.fibers[f].continuation
  {}

  lemma LeaveEnds(s: State)
    requires s.running in s.fibers && s.fibers[s.running].parent.Some?
    requires s.fibers[s.running].parent.value in s.fibers
    ensures !Unfinished(Leave(s).fibers, s.running)
  {}

  lemma PanickedLeave(s: State, c: State)
    requires c.running in c.fibers && c.running == s.running && c.fibers.Keys == s.fibers.Keys
    requires c.fibers[c.running].parent.Some? && c.fibers[c.running].parent.value in c.fibers
    requires forall f :: Unfinished(c.fibers, f) ==>
      c.fibers[f].isCancelled && (!s.fibers[f].isCancelled && f != s.running ==> f in c.ready)
    requires forall f :: f in c.fibers ==> c.fibers[f].isCompleted == s.fibers[f].isCompleted
    ensures AllCancelled(s, Leave(c))
  {
    LeaveSparesOthers(c);
    LeaveEnds(c);
    LeaveSameFlags(c);
    LeaveExtends(c);
    hide Leave;
    forall f | Unfinished(Leave(c).fibers, f) ensures Unfinished(c.fibers, f) && f != c.running {}
  }

  lemma PanickedTree(s: State)
    requires Inv(s) && Leaving(s)
    ensures var c := CancelTree(s, 0);
      && c.fibers.Keys == s.fibers.Keys && c.running == s.running
      && (forall f :: f in s.fibers ==> c.fibers[f] == s.fibers[f].(isCancelled := c.fibers[f].isCancelled))
      && (forall f :: Unfinished(c.fibers, f) ==>
            c.fibers[f].isCancelled && (!s.fibers[f].isCancelled && f != s.running ==> f in c.ready))
  {
    CancelExactly(s, 0);
    var c := CancelTree(s, 0);
    hide CancelTree;
    forall f | Unfinished(c.fibers, f)
      ensures c.fibers[f].isCancelled && (!s.fibers[f].isCancelled && f != s.running ==> f in c.ready)
    {
      assert Unfinished(s.fibers, f);
      EveryFiberIsBelowRoot(s.fibers, f);
      assert f in c.ready[|s.ready|..] ==> f in c.ready;
    }
  }

  lemma PanickedFinish(s: State)
    requires Inv(s) && Leaving(s) && s.running != 0 && !s.fibers[s.running].joinHandle.Waiting?
    ensures AllCancelled(s, Finish(s, Panic))
  {
    var p := LeavingParent(s);
    CancelKeeps(s, 0);
    GoodIsNotFaulted(CancelTree(s, 0));
    PanickedTree(s);
    hide Inv, Leave, CancelTree, AllCancelled;
    PanickedLeave(s, CancelTree(s, 0));
  }

  lemma LeavingParent(s: State) returns (p: nat)
    requires Inv(s) && Leaving(s) && s.running != 0
    ensures s.fibers[s.running].parent == Some(p) && p in s.fibers
  {
    assert Linked(s.fibers, s.running);
    p := s.fibers[s.running].parent.value;
  }

  lemma CompletedThenCancelled(s: State, outcome: Outcome, s': State)
    requires Enabled(s, Return(outcome)) && AllCancelled(Complete(s, outcome), s')
    requires !Unfinished(s'.fibers, s.running)
    ensures AllCancelled(s, s')
  {}

  lemma PanickedReturn(s: State)
    requires Inv(s) && Enabled(s, Return(Panic)) && PanicsUnjoined(s, Return(Panic))
    ensures AllCancelled(s, Next(s, Return(Panic)))
  {
    CompletedKeeps(s, Panic);
    var c := Complete(s, Panic);
    PanickedFinish(c);
    var p := LeavingParent(c);
    FinishEnds(c, Panic);
    hide Inv, Finish, AllCancelled;
    CompletedThenCancelled(s, Panic, Finish(c, Panic));
  }

  lemma FinishEnds(s: State, outcome: Outcome)
    requires Inv(s) && Leaving(s) && s.running != 0
    ensures !Unfinished(Finish(s, outcome).fibers, s.running)
  {
    FinishKeeps(s, outcome);
    FinishShape(s, outcome, Resume);
    var p := LeavingParent(s);
    var x := s.fibers[s.running];
    CancelKeeps(s, 0);
    GoodIsNotFaulted(CancelTree(s, 0));
    GoodIsNotFaulted(Finish(s, outcome));
    hide Inv, StepShape;
    match x.joinHandle {
      case Waiting(None) =>
      case Waiting(Some(j)) =>
        LeaveEnds(s.(fibers := s.fibers[s.running := x.(joinHandle := Waiting(None))], ready := Wake(s.ready, j)));
      case _ =>
        LeaveEnds(if outcome.Panic? then CancelTree(s, 0) else s);
    }
  }

  lemma PanicCancelsAll(s: State, a: Action)
    requires Inv(s) && Enabled(s, a) && PanicsUnjoined(s, a)
    ensures AllCancelled(s, Next(s, a))
  {
    hide Inv, AllCancelled, Finish;
    if a.Return? {
      PanickedReturn(s);
    } else {
      PanickedFinish(s);
    }
  }

  /** What a fiber's return changes of the flags, if it is not a panic that nobody waits for. */
  lemma QuietReturnFlags(s: State, outcome: Outcome)
    requires Enabled(s, Return(outcome)) && !PanicsUnjoined(s, Return(outcome))
    ensures var s' := Next(s, Return(outcome));
      forall f :: f in s.fibers && f in s'.fibers ==>
        && (s'.fibers[f].isCancelled <==> s.fibers[f].isCancelled || f == s.running)
        && (s'.fibers[f].isCompleted <==> s.fibers[f].isCompleted || f == s.running)
  {
    var c := Complete(s, outcome);
    if c.fibers[s.running].children == {} {
      QuietFinishSameFlags(c, outcome);
    }
    hide Finish;
  }

  lemma QuietResumeFlags(s: State)
    requires Enabled(s, Resume) && !PanicsUnjoined(s, Resume)
    ensures SameFlags(s, Next(s, Resume))
  {
    match s.fibers[s.running].continuation {
      case Join1(h) => ResumedJoinSameFlags(s, h);
      case Join2(h) => ResumedJoinSameFlags(s, h);
      case AwaitChildren(outcome) => QuietFinishSameFlags(s, outcome);
      case _ =>
    }
  }

  /**
   The flags, through every step: a fiber is cancelled by a cancellation of a subtree it is in, by its own completion,
   or by a panic that nobody waits for, and by nothing else; it completes when its closure returns.
   */
  lemma FlagsChangeExactly(s: State, capacity: nat, acts: seq<Action>, a: Action, f: nat)
    requires Reached(s, capacity, acts) && Enabled(s, a) && f in s.fibers && f in Next(s, a).fibers
    ensures Next(s, a).fibers[f].isCancelled <==>
      || s.fibers[f].isCancelled
      || (IsCancel(a) && InSubtree(s.fibers, f, Named(s, a)))
      || (a.Return? && f == s.running)
      || (PanicsUnjoined(s, a) && Unfinished(s.fibers, f))
    ensures Next(s, a).fibers[f].isCompleted <==> s.fibers[f].isCompleted || (a.Return? && f == s.running)
  {
    hide Inv, Next, InSubtree;
    ReachedIsGood(s, capacity, acts);
    if IsCancel(a) {
      CancelFlags(s, a, f);
    } else if PanicsUnjoined(s, a) {
      PanicFlags(s, a, f);
    } else if a.Return? {
      QuietReturnFlags(s, a.outcome);
    } else if a.Resume? {
      QuietResumeFlags(s);
    } else if a.Drop? || a.Join? {
      ConsumeSameFlags(s, a.handle, a);
    } else {
      OthersSameFlags(s, a);
    }
  }

  lemma CancelFlags(s: State, a: Action, f: nat)
    requires Inv(s) && Enabled(s, a) && IsCancel(a) && f in s.fibers
    ensures var s' := Next(s, a);
      && f in s'.fibers && s'.fibers[f].isCompleted == s.fibers[f].isCompleted
      && (s'.fibers[f].isCancelled <==> s.fibers[f].isCancelled || InSubtree(s.fibers, f, Named(s, a)))
  {
    hide Inv, Next, InSubtree;
    CancelsNamed(s, a);
  }

  lemma GoodFlags(s: State, f: nat)
    requires Inv(s) && f in s.fibers
    ensures FlagsOk(s.fibers[f])
  {}

  lemma PanickedEnds(s: State, a: Action)
    requires Inv(s) && Enabled(s, a) && PanicsUnjoined(s, a)
    ensures !Unfinished(Next(s, a).fibers, s.running)
  {
    hide Inv, Finish;
    if a.Return? {
      CompletedKeeps(s, Panic);
      FinishEnds(Complete(s, Panic), Panic);
    } else {
      FinishEnds(s, Panic);
    }
  }

  lemma PanicFlags(s: State, a: Action, f: nat)
    requires Inv(s) && Enabled(s, a) && PanicsUnjoined(s, a) && f in s.fibers && f in Next(s, a).fibers
    ensures Next(s, a).fibers[f].isCancelled
    ensures s.fibers[f].isCancelled || f == s.running || Unfinished(s.fibers, f)
    ensures Next(s, a).fibers[f].isCompleted <==> s.fibers[f].isCompleted || (a.Return? && f == s.running)
  {
    hide Inv;
    GoodFlags(s, f);
    StepKeeps(s, a);
    GoodFlags(Next(s, a), f);
    PanicCancelsAll(s, a);
    PanickedEnds(s, a);
    hide Next;
  }

  /**
   The end of a spawned fiber. If it panicked and nobody waits for it, every unfinished fiber left is cancelled and
   those that were not before are ready; otherwise nobody else's flag changes, and a fiber that waits for it is ready.
   */
  lemma EndOfFiber(s: State, capacity: nat, acts: seq<Action>, a: Action, outcome: Outcome)
    requires Reached(s, capacity, acts) && Enabled(s, a) && Ends(s, a, outcome) && s.running != 0
    ensures var s', x := Next(s, a), s.fibers[s.running];
      if outcome.Panic? && !x.joinHandle.Waiting? then
        && (forall f :: Unfinished(s'.fibers, f) ==> f in s.fibers && s'.fibers[f].isCancelled)
        && (forall f :: Unfinished(s'.fibers, f) && f in s.fibers && !s.fibers[f].isCancelled ==> f in s'.ready)
      else
        && (forall f :: f in s.fibers && f in s'.fibers && f != s.running ==>
              s'.fibers[f].isCancelled == s.fibers[f].isCancelled)
        && (x.joinHandle.Waiting? && x.joinHandle.waker.Some? ==> x.joinHandle.waker.value in s'.ready)
  {
    hide Inv, Next;
    ReachedIsGood(s, capacity, acts);
    if PanicsUnjoined(s, a) {
      PanicCancelsAll(s, a);
    } else {
      QuietEnd(s, a, outcome);
    }
  }

  lemma QuietEnd(s: State, a: Action, outcome: Outcome)
    requires Enabled(s, a) && Ends(s, a, outcome) && s.running != 0 && !PanicsUnjoined(s, a)
    ensures var s', x := Next(s, a), s.fibers[s.running];
      && (forall f :: f in s.fibers && f in s'.fibers && f != s.running ==>
            s'.fibers[f].isCancelled == s.fibers[f].isCancelled)
      && (x.joinHandle.Waiting? && x.joinHandle.waker.Some? ==> x.joinHandle.waker.value in s'.ready)
  {
    hide Finish;
    if a.Return? {
      QuietReturnFlags(s, outcome);
    } else {
      QuietResumeFlags(s);
    }
    if s.fibers[s.running].joinHandle.Waiting? && s.fibers[s.running].joinHandle.waker.Some? {
      JoinerIsWoken(if a.Return? then Complete(s, outcome) else s, outcome);
    }
  }

  lemma JoinerIsWoken(s: State, outcome: Outcome)
    requires s.running in s.fibers && s.running != 0 && s.fibers[s.running].joinHandle.Waiting?
    requires s.fibers[s.running].joinHandle.waker.Some?
    ensures s.fibers[s.running].joinHandle.waker.value in Finish(s, outcome).ready
  {
    var x := s.fibers[s.running];
    var j := x.joinHandle.waker.value;
    var m := s.(fibers := s.fibers[s.running := x.(joinHandle := Waiting(None))], ready := Wake(s.ready, j));
    LeaveExtends(m);
    hide Leave;
  }

  // ---------------------------------------------------------------------------------------------
  // Starting, spawning, yielding
  // ---------------------------------------------------------------------------------------------

  /** `start` runs one fiber, which is not cancelled, has no parent, and whose closure is on a stack of its own. */
  lemma StartsWithRoot(capacity: nat)
    ensures var s := Start(capacity);
      && s.mode.Running? && s.running == 0 && s.ready == [] && s.fibers.Keys == {0} && s.handles == {}
      && s.fibers[0].continuation.User? && !s.fibers[0].isCancelled && !s.fibers[0].isCompleted
      && s.fibers[0].parent.None? && s.fibers[0].children == {} && s.fibers[0].joinHandle.Unused?
      && s.stacks == map[s.fibers[0].stack := Closure] && K.IsIdle(s.ring) && s.capacity == capacity
  {}

  /**
   `spawn` adds a fiber that is cancelled exactly if its parent is, at the back of the ready queue, with its closure on
   the stack that was pooled last or else on a new one; nothing but the parent's children changes otherwise.
   */
  lemma SpawnAddsChild(s: State, slot: nat)
    requires Enabled(s, Spawn(slot))
    ensures var s', r := Next(s, Spawn(slot)), s.running;
      && s'.fibers.Keys == s.fibers.Keys + {slot} && slot !in s.fibers
      && (var c := s'.fibers[slot];
          && c.continuation.User? && c.isCancelled == s.fibers[r].isCancelled && !c.isCompleted
          && c.parent == Some(r) && c.children == {} && c.joinHandle.Unused? && c.syscallResult.None?
          && s'.handles == s.handles + {Handle(slot, c.stamp)}
          && c.stack in s'.stacks && s'.stacks[c.stack] == Closure
          && (if s.stackPool == [] then c.stack == s.mapped && s'.stackPool == []
              else s'.stackPool + [c.stack] == s.stackPool))
      && s'.fibers[r] == s.fibers[r].(children := s.fibers[r].children + {slot})
      && (forall f :: f in s.fibers && f != r ==> s'.fibers[f] == s.fibers[f])
      && s'.ready == s.ready + [slot] && s'.running == r && s'.mode.Running? && s'.ring == s.ring
  {}

  /** `yield_now` lets every fiber that is ready run first. */
  lemma YieldGivesWay(s: State, capacity: nat, acts: seq<Action>)
    requires Reached(s, capacity, acts) && Enabled(s, Yield)
    ensures Next(s, Yield) == s.(ready := s.ready + [s.running], mode := Polling)
  {
    ReachedIsGood(s, capacity, acts);
  }

  // ---------------------------------------------------------------------------------------------
  // Completions
  // ---------------------------------------------------------------------------------------------

  function Users(cs: seq<K.Cqe>): seq<nat> {
    if cs == [] then [] else [cs[0].userData] + Users(cs[1..])
  }

  lemma {:induction false} DeliverAllInOrder(s: State, cs: seq<K.Cqe>)
    ensures var d := DeliverAll(s, cs);
      !d.mode.Faulted? ==>
        && s.ready <= d.ready && SubsequenceOf(d.ready[|s.ready|..], Users(cs))
        && forall f :: f in d.ready <==> f in s.ready || f in Users(cs)
    decreases |cs|
  {
    if cs != [] && !s.mode.Faulted? {
      var m, rest := Deliver(s, cs[0]), cs[1..];
      var d := DeliverAll(m, rest);
      DeliverAllInOrder(m, rest);
      if !d.mode.Faulted? {
        WokenInOrder(s.ready, m.ready, d.ready, cs[0].userData, Users(rest));
      }
    }
  }

  lemma WokenInOrder(ready: seq<nat>, next: seq<nat>, last: seq<nat>, f: nat, users: seq<nat>)
    requires next == Wake(ready, f) && next <= last && SubsequenceOf(last[|next|..], users)
    ensures ready <= last && SubsequenceOf(last[|ready|..], [f] + users)
  {
    assert ([f] + users)[1..] == users;
    if f !in ready {
      assert last[|ready|..] == [f] + last[|next|..];
    }
  }

  /**
   Processing the completions wakes the fibers they are for, in the order of the completions and behind
   those that are ready already.
   */
  lemma ReapWakesInOrder(s: State, capacity: nat, acts: seq<Action>)
    requires Reached(s, capacity, acts) && Enabled(s, Reap)
    ensures var s', users := Next(s, Reap), Users(K.OfOperations(s.ring.cq));
      && s'.mode.Polled? && s'.ring == s.ring.(cq := [])
      && s.ready <= s'.ready && SubsequenceOf(s'.ready[|s.ready|..], users)
      && (forall f :: f in s'.ready <==> f in s.ready || f in users)
      && NoDuplicates(s'.ready)
  {
    ReachedIsGood(s, capacity, acts);
    ReapKeeps(s);
    GoodIsNotFaulted(Next(s, Reap));
    var e, cs := s.(ring := s.ring.(cq := [])), K.OfOperations(s.ring.cq);
    DeliverAllInOrder(e, cs);
    ReapedRing(e, cs);
    assert QueueOk(Next(s, Reap));
    hide Inv, DeliverAll, QueueOk;
  }

  // ---------------------------------------------------------------------------------------------
  // Outcomes
  // ---------------------------------------------------------------------------------------------

  /** What fibers returned in the course of a run, by their stamps. */
  ghost function Outcomes(s: State, acts: seq<Action>): map<nat, Outcome>
    requires Run(s, acts)
    decreases |acts|
  {
    if acts == [] then map[] else OutcomeOf(s, acts[0]) + Outcomes(Next(s, acts[0]), acts[1..])
  }

  function OutcomeOf(s: State, a: Action): map<nat, Outcome>
    requires Enabled(s, a)
  {
    match a
    case Return(outcome) => map[s.fibers[s.running].stamp := outcome]
    case _ => map[]
  }

  lemma StepOutcomes(s: State, a: Action)
    requires Enabled(s, a)
    ensures Next(s, a).returned == s.returned + OutcomeOf(s, a)
  {
    match a {
      case Return(outcome) => ReturnExtends(s, outcome);
      case Reap => ReapExtends(s);
      case Resume => ResumeExtends(s);
      case _ => OthersExtend(s, a);
    }
    hide Next;
    assert s.returned + map[] == s.returned;
  }

  lemma {:induction false} RunOutcomes(s: State, acts: seq<Action>)
    requires Run(s, acts)
    ensures After(s, acts).returned == s.returned + Outcomes(s, acts)
    decreases |acts|
  {
    if acts != [] {
      StepOutcomes(s, acts[0]);
      hide Next, OutcomeOf;
      RunOutcomes(Next(s, acts[0]), acts[1..]);
      MapsAssociate(s.returned, OutcomeOf(s, acts[0]), Outcomes(Next(s, acts[0]), acts[1..]));
    } else {
      assert s.returned + map[] == s.returned;
    }
  }

  lemma ReachedOutcomes(s: State, capacity: nat, acts: seq<Action>)
    requires Reached(s, capacity, acts)
    ensures s.returned == Outcomes(Start(capacity), acts)
  {
    RunOutcomes(Start(capacity), acts);
    hide Run, After;
    assert map[] + Outcomes(Start(capacity), acts) == Outcomes(Start(capacity), acts);
  }

  /** A join that yields an outcome yields the one with which the closure of that very fiber returned in this run. */
  lemma JoinYieldsReturn(s: State, capacity: nat, acts: seq<Action>, a: Action)
    requires Reached(s, capacity, acts) && Enabled(s, a) && Reads(s, a).Some?
    ensures var (h, cell) := Reads(s, a).value;
      var outcomes := Outcomes(Start(capacity), acts);
      h.stamp in outcomes && cell == Output(outcomes[h.stamp])
  {
    JoinYieldsOwnOutcome(s, capacity, acts, a);
    ReachedOutcomes(s, capacity, acts);
    hide Reads, Enabled;
  }

  /** `start` yields the outcome with which the closure of the root returned. */
  lemma StartYieldsReturn(s: State, capacity: nat, acts: seq<Action>)
    requires Reached(s, capacity, acts) && s.mode.Returned?
    ensures var outcomes := Outcomes(Start(capacity), acts);
      && 0 in s.fibers && s.fibers[0].stack in s.stacks && s.fibers[0].stamp in outcomes
      && s.stacks[s.fibers[0].stack] == Output(outcomes[s.fibers[0].stamp])
  {
    StartYieldsRootOutcome(s, capacity, acts);
    ReachedOutcomes(s, capacity, acts);
  }
}
