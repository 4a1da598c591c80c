/** Who gives a slot and its stack back: one of two places, once. */
module FiberRecycling {
  import opened Options
  import opened Fibers
  import opened FiberTree
  import opened FiberMachine
  import opened FiberInvariant
  import opened FiberRuns
  import opened FiberTheorems
  import K = Kernel

  /** The step gives back the slot `t` and its stack, and nothing else. */
  ghost predicate GivesBack(s: State, s': State, t: nat) {
    t in s.fibers && s'.fibers.Keys == s.fibers.Keys - {t} && s'.stackPool == s.stackPool + [s.fibers[t].stack]
  }

  /** The handle is consumed after its fiber has finished: by `join` or by `drop`. */
  predicate ConsumedLate(s: State, a: Action, t: nat) {
    Consumes(s, a) == Some(t) && t in s.fibers && s.fibers[t].continuation.Finished?
  }

  /** The fiber reaches the end of its trampoline after its handle has gone. */
  predicate EndsUnheld(s: State, a: Action, t: nat) {
    && s.mode.Running? && t == s.running && t in s.fibers && s.fibers[t].joinHandle.Dropped?
    && s.fibers[t].children == {}
    && (a.Return? || (a.Resume? && s.fibers[t].continuation.AwaitChildren?))
  }

  /** Every slot is still there, or only `t` has been given back, in the way `way`. */
  ghost predicate Recycles(s: State, s': State, t: nat, way: bool) {
    s.fibers.Keys <= s'.fibers.Keys || (way && GivesBack(s, s', t))
  }

  lemma DropRecycles(s: State, h: Handle)
    requires h.slot in s.fibers
    ensures Recycles(s, DropHandle(s, h), h.slot, s.fibers[h.slot].isCompleted)
  {}

  lemma LeaveRecycles(s: State)
    requires s.running in s.fibers && s.fibers[s.running].parent != Some(s.running)
    ensures Recycles(s, Leave(s), s.running, s.fibers[s.running].joinHandle.Dropped?)
  {}

  lemma FinishRecycles(s: State, outcome: Outcome)
    requires s.running in s.fibers && s.fibers[s.running].parent != Some(s.running)
    ensures Recycles(s, Finish(s, outcome), s.running, s.fibers[s.running].joinHandle.Dropped?)
  {
    var x := s.fibers[s.running];
    if s.running != 0 {
      match x.joinHandle {
        case Waiting(None) =>
        case Waiting(Some(j)) =>
          var fs := s.fibers[s.running := x.(joinHandle := Waiting(None))];
          LeaveRecycles(s.(fibers := fs, ready := Wake(s.ready, j)));
        case _ =>
          LeaveRecycles(if outcome.Panic? then CancelTree(s, 0) else s);
      }
    }
  }

  lemma NotOwnParent(s: State)
    requires Inv(s) && s.mode.Running?
    ensures s.running in s.fibers && Unfinished(s.fibers, s.running)
    ensures s.fibers[s.running].parent != Some(s.running)
  {
    assert ParkedOk(s, s.running) && Linked(s.fibers, s.running);
  }

  lemma JoiningRecycles(s: State, a: Action, h: Handle)
    requires Inv(s) && Enabled(s, a) && Timely(s, a)
    requires a == Drop(h) || a == Join(h) || (a.Resume? && JoinsOn(s.fibers, s.running, h))
    ensures Recycles(s, Next(s, a), h.slot, ConsumedLate(s, a, h.slot))
  {
    hide Numbered, Tree, QueueOk, ResultOk, RingOk, StacksOk, CancelledBelow;
    if a.Resume? {
      assert JoiningOk(s.fibers, s.running, h) && ParkedOk(s, s.running) && FlagsOk(s.fibers[h.slot]);
      DropRecycles(WithContinuation(s, User), h);
    } else {
      assert HandleOk(s.fibers, h) && FlagsOk(s.fibers[h.slot]);
      DropRecycles(s.(handles := s.handles - {h}), h);
    }
  }

  lemma ReturningRecycles(s: State, outcome: Outcome)
    requires Inv(s) && Enabled(s, Return(outcome))
    ensures Recycles(s, Next(s, Return(outcome)), s.running, EndsUnheld(s, Return(outcome), s.running))
  {
    NotOwnParent(s);
    FinishRecycles(Complete(s, outcome), outcome);
  }

  lemma ResumingRecycles(s: State)
    requires Inv(s) && Enabled(s, Resume) && Timely(s, Resume)
    ensures var h := JoinTarget(s.fibers[s.running].continuation);
      var t := if h.Some? then h.value.slot else s.running;
      Recycles(s, Next(s, Resume), t, if h.Some? then ConsumedLate(s, Resume, t) else EndsUnheld(s, Resume, t))
  {
    NotOwnParent(s);
    match s.fibers[s.running].continuation {
      case Join1(h) => JoiningRecycles(s, Resume, h);
      case Join2(h) => JoiningRecycles(s, Resume, h);
      case AwaitChildren(outcome) =>
        assert ParkedOk(s, s.running);
        FinishRecycles(s, outcome);
      case _ =>
    }
  }

  lemma ReapKeepsSlots(s: State)
    requires Enabled(s, Reap)
    ensures Next(s, Reap).fibers.Keys == s.fibers.Keys
  {
    DeliverAllResults(s.(ring := s.ring.(cq := [])), K.OfOperations(s.ring.cq));
    hide DeliverAll;
  }

  lemma OthersKeepSlots(s: State, a: Action)
    requires Enabled(s, a) && !a.Drop? && !a.Join? && !a.Return? && !a.Resume?
    ensures s.fibers.Keys <= Next(s, a).fibers.Keys
  {
    hide ReapCompleted;
    if a.Reap? {
      ReapKeepsSlots(s);
    }
  }

  /**
   A slot becomes free in exactly one of two ways, the consumption of its handle after the fiber has finished or the
   end of the fiber after its handle has gone; its stack then goes to the pool, once, and no other slot becomes free.
   */
  lemma FreedExactlyOnce(s: State, capacity: nat, acts: seq<Action>, a: Action, t: nat)
    requires Reached(s, capacity, acts) && Enabled(s, a) && Timely(s, a)
    requires t in s.fibers && t !in Next(s, a).fibers
    ensures GivesBack(s, Next(s, a), t)
    ensures ConsumedLate(s, a, t) <==> !EndsUnheld(s, a, t)
  {
    hide Inv;
    ReachedIsGood(s, capacity, acts);
    match a {
      case Drop(h) => JoiningRecycles(s, a, h);
      case Join(h) => JoiningRecycles(s, a, h);
      case Return(outcome) => ReturningRecycles(s, outcome);
      case Resume => ResumingRecycles(s);
      case _ => OthersKeepSlots(s, a);
    }
  }
}
