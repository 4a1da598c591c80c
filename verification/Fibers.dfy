/** The entities of the fiber runtime: fibers, their join handles, and the points where they are suspended. */
module Fibers {
  import opened Options

  /** What a fiber's closure left behind: a value, or a panic. */
  datatype Outcome = Success(value: int) | Panic

  /** A join handle as user code holds it: a slot index. `stamp` is bookkeeping: which fiber of that slot it is for. */
  datatype Handle = Handle(slot: nat, stamp: nat)

  datatype JoinHandleState = Unused | Waiting(waker: Option<nat>) | Dropped

  /**
   The saved continuation of a fiber, that is, the place its next dispatch resumes at:
   in user code, in one of the two parks of `syscall`, in one of the two parks of `join`, or in the
   park that waits for children. A finished fiber has left its trampoline and is never dispatched.
   */
  datatype Point =
    | User
    | Syscall1(op: nat)
    | Syscall2(op: nat)
    | Join1(target: Handle)
    | Join2(target: Handle)
    | AwaitChildren(outcome: Outcome)
    | Finished

  /**
   One entry of the slab. `stamp` and `joiner` are bookkeeping that no operation reads: the moment
   the fiber was created, and the fiber whose `join` currently consumes this fiber's handle.
   */
  datatype Fiber = Fiber(
    stack: nat,
    continuation: Point,
    joinHandle: JoinHandleState,
    parent: Option<nat>,
    children: set<nat>,
    syscallResult: Option<int>,
    isCompleted: bool,
    isCancelled: bool,
    stamp: nat,
    joiner: Option<nat>)

  type Slab = map<nat, Fiber>

  predicate Unfinished(fs: Slab, f: nat) {
    f in fs && !fs[f].continuation.Finished?
  }

  /** The handle that the fiber `f` is consuming in `join`. */
  predicate JoinsOn(fs: Slab, f: nat, h: Handle) {
    f in fs && (fs[f].continuation == Join1(h) || fs[f].continuation == Join2(h))
  }

  /** `Waker::schedule_with`: at the back of the ready queue, unless already there. */
  function Wake(ready: seq<nat>, f: nat): (r: seq<nat>) {
    if f in ready then ready else ready + [f]
  }
}
