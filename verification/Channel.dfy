/**
 The unbounded channel of `sync::channel`, shared by any number of senders and receivers. One step is what a fiber
 does between two context switches; a step of `recv` is one turn of its loop, which another receiver may overtake.
 */
module Channel {
  import opened Sequences

  /**
   The source's `ChannelState`, and of the scheduler what concerns the channel: the fibers in the park of `recv`,
   those of them in the ready queue, and the cancelled fibers. Messages are integers.
   */
  datatype State = State(
    queue: seq<int>,
    noLongerEmpty: seq<nat>,
    isClosed: bool,
    parked: set<nat>,
    scheduled: set<nat>,
    cancelled: set<nat>)

  datatype Action =
    | Send(message: int)
    | SenderClose
    | ReceiverClose
    | Recv(fiber: nat)
    // the runtime: a fiber is cancelled; a fiber has ended and a new one has its slot
    | Cancel(fiber: nat)
    | Reuse(fiber: nat)

  /** What the caller sees. A turn of `recv` may also park. */
  datatype Reply = Accepted | Received(message: int) | Closed | Cancelled | Parks | Silent

  const EMPTY := State([], [], false, {}, {}, {})

  /** The receivers that are parked and not about to run. */
  function Asleep(s: State): set<nat> {
    s.parked - s.scheduled
  }

  /** `Waker::schedule`, as far as it reaches a receiver of this channel. */
  function Schedule(s: State, f: nat): State {
    if f in s.parked then s.(scheduled := s.scheduled + {f}) else s
  }

  function SendStep(s: State, message: int): State {
    if s.isClosed then s
    else
      var q := s.(queue := s.queue + [message]);
      if q.noLongerEmpty == [] then q
      else Schedule(q.(noLongerEmpty := q.noLongerEmpty[1..]), q.noLongerEmpty[0])
  }

  /** `SenderState::close`, which is also the drop of the last sender. */
  function SenderCloseStep(s: State): State {
    s.(isClosed := true, noLongerEmpty := [], scheduled := s.scheduled + Among(s.parked, s.noLongerEmpty))
  }

  function Among(fibers: set<nat>, wakers: seq<nat>): set<nat> {
    set f | f in fibers && f in wakers
  }

  lemma AmongOneMore(fibers: set<nat>, wakers: seq<nat>, waker: nat)
    ensures Among(fibers, wakers + [waker]) == Among(fibers, wakers) + if waker in fibers then {waker} else {}
  {
  }

  function RecvReply(s: State, f: nat): Reply {
    if s.queue != [] then Received(s.queue[0])
    else if s.isClosed then Closed
    else if f in s.cancelled then Cancelled
    else Parks
  }

  /** One turn of the loop in `recv`, be it the first or after a park. */
  function RecvStep(s: State, f: nat): State {
    var awake := s.(parked := s.parked - {f}, scheduled := s.scheduled - {f});
    match RecvReply(s, f)
    case Received(_) => awake.(queue := s.queue[1..])
    case Parks => awake.(noLongerEmpty := s.noLongerEmpty + [f], parked := awake.parked + {f})
    case _ => awake
  }

  function CancelStep(s: State, f: nat): State {
    var marked := s.(cancelled := s.cancelled + {f});
    if f in s.cancelled then marked else Schedule(marked, f)
  }

  predicate Enabled(s: State, a: Action) {
    match a
    case Recv(f) => f in s.parked ==> f in s.scheduled
    case Reuse(f) => f !in s.parked
    case _ => true
  }

  function Next(s: State, a: Action): State {
    match a
    case Send(message) => SendStep(s, message)
    case SenderClose => SenderCloseStep(s)
    case ReceiverClose => s.(isClosed := true)
    case Recv(f) => RecvStep(s, f)
    case Cancel(f) => CancelStep(s, f)
    case Reuse(f) => s.(cancelled := s.cancelled - {f})
  }

  function ReplyTo(s: State, a: Action): Reply {
    match a
    case Send(_) => if s.isClosed then Closed else Accepted
    case Recv(f) => RecvReply(s, f)
    case _ => Silent
  }

  // ---------------------------------------------------------------------------------------------
  // The channel as the source writes it
  // ---------------------------------------------------------------------------------------------

  class ChannelState {
    var queue: seq<int>
    var noLongerEmpty: seq<nat>
    var isClosed: bool
    // the scheduler's part
    var parked: set<nat>
    var scheduled: set<nat>
    var cancelled: set<nat>

    ghost function Value(): State
      reads this
    {
      State(queue, noLongerEmpty, isClosed, parked, scheduled, cancelled)
    }

    /** `unbounded`. */
    constructor ()
      ensures Value() == EMPTY
    {
      queue, noLongerEmpty, isClosed := [], [], false;
      parked, scheduled, cancelled := {}, {}, {};
    }

    method Schedule(waker: nat)
      modifies this`scheduled
      ensures scheduled == if waker in parked then old(scheduled) + {waker} else old(scheduled)
    {
      if waker in parked {
        scheduled := scheduled + {waker};
      }
    }

    method Send(message: int) returns (reply: Reply)
      modifies this
      ensures Value() == Next(old(Value()), Action.Send(message))
      ensures reply == ReplyTo(old(Value()), Action.Send(message))
      ensures reply == if old(isClosed) then Closed else Accepted
    {
      if isClosed {
        return Closed;
      }
      queue := queue + [message];
      if noLongerEmpty != [] {
        var waker := noLongerEmpty[0];
        noLongerEmpty := noLongerEmpty[1..];
        Schedule(waker);
      }
      return Accepted;
    }

    /** The loop that drains the wakers one by one reaches every receiver that has one. */
    method CloseSender()
      modifies this
      ensures Value() == Next(old(Value()), SenderClose)
    {
      isClosed := true;
      ghost var done := [];
      while noLongerEmpty != []
        invariant old(noLongerEmpty) == done + noLongerEmpty
        invariant scheduled == old(scheduled) + Among(parked, done)
        invariant isClosed && queue == old(queue) && parked == old(parked) && cancelled == old(cancelled)
        decreases |noLongerEmpty|
      {
        var waker := noLongerEmpty[0];
        noLongerEmpty := noLongerEmpty[1..];
        Schedule(waker);
        AmongOneMore(parked, done, waker);
        done := done + [waker];
      }
    }

    method CloseReceiver()
      modifies this
      ensures Value() == Next(old(Value()), ReceiverClose)
    {
      isClosed := true;
    }

    /** One turn of the loop in `recv`, by the running fiber. */
    method RecvTurn(running: nat) returns (reply: Reply)
      modifies this
      ensures Value() == Next(old(Value()), Recv(running)) && reply == ReplyTo(old(Value()), Recv(running))
      ensures reply.Received? <==> old(queue) != []
      ensures reply.Closed? <==> old(queue) == [] && old(isClosed)
      ensures reply.Cancelled? <==> old(queue) == [] && !old(isClosed) && running in cancelled
      ensures reply.Received? ==> [reply.message] + queue == old(queue)
    {
      parked, scheduled := parked - {running}, scheduled - {running};
      if queue != [] {
        reply := Received(queue[0]);
        queue := queue[1..];
        return;
      }
      if isClosed {
        return Closed;
      }
      if running in cancelled {
        return Cancelled;
      }
      noLongerEmpty := noLongerEmpty + [running];
      parked := parked + {running};
      return Parks;
    }
  }

  // ---------------------------------------------------------------------------------------------
  // Runs
  // ---------------------------------------------------------------------------------------------

  ghost predicate Run(s: State, acts: seq<Action>)
    decreases |acts|
  {
    acts == [] || (Enabled(s, acts[0]) && Run(Next(s, acts[0]), acts[1..]))
  }

  ghost function After(s: State, acts: seq<Action>): State
    decreases |acts|
  {
    if acts == [] then s else After(Next(s, acts[0]), acts[1..])
  }

  /** The messages that the run's sends got accepted, in order. */
  ghost function Sent(s: State, acts: seq<Action>): seq<int>
    decreases |acts|
  {
    if acts == [] then [] else SentBy(s, acts[0]) + Sent(Next(s, acts[0]), acts[1..])
  }

  function SentBy(s: State, a: Action): seq<int> {
    if ReplyTo(s, a).Accepted? then [a.message] else []
  }

  /** The messages that the run's receives returned, in order. */
  ghost function Taken(s: State, acts: seq<Action>): seq<int>
    decreases |acts|
  {
    if acts == [] then [] else TakenBy(s, acts[0]) + Taken(Next(s, acts[0]), acts[1..])
  }

  function TakenBy(s: State, a: Action): seq<int> {
    if ReplyTo(s, a).Received? then [ReplyTo(s, a).message] else []
  }

  // ---------------------------------------------------------------------------------------------
  // Conservation and order
  // ---------------------------------------------------------------------------------------------

  /** In every run, what was queued and what is sent is what is taken and what stays queued, in this order. */
  lemma {:induction false} MessagesAreConserved(s: State, acts: seq<Action>)
    ensures s.queue + Sent(s, acts) == Taken(s, acts) + After(s, acts).queue
    decreases |acts|
  {
    if acts != [] {
      var a, rest := acts[0], acts[1..];
      StepConserves(s, a);
      hide Next, SentBy, TakenBy;
      MessagesAreConserved(Next(s, a), rest);
      Regroup(s.queue, SentBy(s, a), TakenBy(s, a), Next(s, a).queue,
              Sent(Next(s, a), rest), Taken(Next(s, a), rest), After(Next(s, a), rest).queue);
    }
  }

  lemma StepConserves(s: State, a: Action)
    ensures s.queue + SentBy(s, a) == TakenBy(s, a) + Next(s, a).queue
  {}

  /** A closed channel stays closed and accepts nothing more. */
  lemma {:induction false} ClosedIsForGood(s: State, acts: seq<Action>)
    requires s.isClosed
    ensures After(s, acts).isClosed && Sent(s, acts) == []
    decreases |acts|
  {
    if acts != [] {
      ClosedIsForGood(Next(s, acts[0]), acts[1..]);
    }
  }

  lemma {:induction false} ClosedExactly(s: State, acts: seq<Action>)
    ensures After(s, acts).isClosed <==> s.isClosed || SenderClose in acts || ReceiverClose in acts
    decreases |acts|
  {
    if acts != [] {
      assert acts == [acts[0]] + acts[1..];
      ClosedExactly(Next(s, acts[0]), acts[1..]);
    }
  }

  /** A send is refused, as closed, if and only if either side has closed the channel before. */
  lemma SendIsRefusedExactly(acts: seq<Action>, message: int)
    ensures ReplyTo(After(EMPTY, acts), Send(message))
         == if SenderClose in acts || ReceiverClose in acts then Closed else Accepted
  {
    ClosedExactly(EMPTY, acts);
  }

  /**
   A receive yields the oldest message that was sent and not taken yet; only without one it is refused, as closed if
   either side has closed before, or else as cancelled if the receiver is.
   */
  lemma RecvRepliesExactly(acts: seq<Action>, f: nat)
    ensures var s, sent, taken := After(EMPTY, acts), Sent(EMPTY, acts), Taken(EMPTY, acts);
      && taken <= sent
      && ReplyTo(s, Recv(f)) ==
           if |taken| < |sent| then Received(sent[|taken|])
           else if SenderClose in acts || ReceiverClose in acts then Closed
           else if f in s.cancelled then Cancelled
           else Parks
  {
    ClosedExactly(EMPTY, acts);
    MessagesAreConserved(EMPTY, acts);
    assert EMPTY.queue + Sent(EMPTY, acts) == Sent(EMPTY, acts);
  }

  /**
   A receiver that is not asleep, cancelled or not, drains the queue in order, closed or not;
   only then does it see that the channel is closed, and only then that it is cancelled.
   */
  lemma {:induction false} QueueCanBeDrained(s: State, f: nat) returns (acts: seq<Action>)
    requires f !in Asleep(s)
    ensures |acts| == |s.queue| && (forall a :: a in acts ==> a == Recv(f)) && Run(s, acts)
    ensures Taken(s, acts) == s.queue && After(s, acts).queue == []
    ensures ReplyTo(After(s, acts), Recv(f))
         == if s.isClosed then Closed else if f in s.cancelled then Cancelled else Parks
    decreases |s.queue|
  {
    acts := [];
    if s.queue != [] {
      var rest := QueueCanBeDrained(Next(s, Recv(f)), f);
      acts := [Recv(f)] + rest;
      assert acts[1..] == rest;
    }
  }

  // ---------------------------------------------------------------------------------------------
  // Wakeups, in all runs
  // ---------------------------------------------------------------------------------------------

  /** Whoever sleeps has a waker in the list and is not cancelled. */
  ghost predicate Inv(s: State) {
    && s.scheduled <= s.parked
    && (forall f :: f in Asleep(s) ==> f in s.noLongerEmpty && f !in s.cancelled)
  }

  lemma StepKeeps(s: State, a: Action)
    requires Inv(s) && Enabled(s, a)
    ensures Inv(Next(s, a))
  {
    if a.Send? && s.noLongerEmpty != [] {
      assert s.noLongerEmpty == [s.noLongerEmpty[0]] + s.noLongerEmpty[1..];
    }
  }

  lemma {:induction false} RunKeeps(s: State, acts: seq<Action>)
    requires Inv(s) && Run(s, acts)
    ensures Inv(After(s, acts))
    decreases |acts|
  {
    if acts != [] {
      StepKeeps(s, acts[0]);
      RunKeeps(Next(s, acts[0]), acts[1..]);
    }
  }

  /** After a close from the sender's side nobody sleeps, ever again. */
  lemma SenderCloseWakesAll(before: seq<Action>, after: seq<Action>)
    requires Run(EMPTY, before) && Run(Next(After(EMPTY, before), SenderClose), after)
    ensures Asleep(After(Next(After(EMPTY, before), SenderClose), after)) == {}
  {
    RunKeeps(EMPTY, before);
    ClosedAndAwakeStays(Next(After(EMPTY, before), SenderClose), after);
  }

  lemma {:induction false} ClosedAndAwakeStays(s: State, acts: seq<Action>)
    requires s.isClosed && Asleep(s) == {} && Run(s, acts)
    ensures Asleep(After(s, acts)) == {}
    decreases |acts|
  {
    if acts != [] {
      ClosedAndAwakeStays(Next(s, acts[0]), acts[1..]);
    }
  }

  /** On a closed channel a receiver that is not asleep never falls asleep. */
  lemma {:induction false} ClosedStaysAwake(s: State, f: nat, acts: seq<Action>)
    requires s.isClosed && f !in Asleep(s) && Run(s, acts)
    ensures f !in Asleep(After(s, acts))
    decreases |acts|
  {
    if acts != [] {
      ClosedStaysAwake(Next(s, acts[0]), f, acts[1..]);
    }
  }

  /** What ends the sleep on a closed channel is the close from the sender's side and the sleeper's own cancellation. */
  lemma {:induction false} ClosedSleepsExactly(s: State, f: nat, acts: seq<Action>)
    requires Inv(s) && s.isClosed && f in Asleep(s) && Run(s, acts)
    ensures f in Asleep(After(s, acts)) <==> SenderClose !in acts && Cancel(f) !in acts
    decreases |acts|
  {
    if acts != [] {
      var s', rest := Next(s, acts[0]), acts[1..];
      assert acts == [acts[0]] + rest;
      StepKeeps(s, acts[0]);
      if f in Asleep(s') {
        ClosedSleepsExactly(s', f, rest);
      } else {
        ClosedStaysAwake(s', f, rest);
      }
    }
  }

  /** A close from the receiver's side wakes nobody: the other close or a cancellation ends the sleep, nothing else. */
  lemma ReceiverCloseWakesNobody(s: State, f: nat, acts: seq<Action>)
    requires Inv(s) && f in Asleep(s) && Run(Next(s, ReceiverClose), acts)
    ensures f in Asleep(After(Next(s, ReceiverClose), acts)) <==> SenderClose !in acts && Cancel(f) !in acts
  {
    StepKeeps(s, ReceiverClose);
    ClosedSleepsExactly(Next(s, ReceiverClose), f, acts);
  }

  /** Wakers are used in the order of parking: each accepted message uses the oldest, nothing else removes one. */
  lemma {:induction false} WakersAreFifo(s: State, acts: seq<Action>, k: nat)
    requires k < |s.noLongerEmpty| && SenderClose !in acts && |Sent(s, acts)| <= k
    ensures k - |Sent(s, acts)| < |After(s, acts).noLongerEmpty|
    ensures After(s, acts).noLongerEmpty[k - |Sent(s, acts)|] == s.noLongerEmpty[k]
    decreases |acts|
  {
    if acts != [] {
      assert acts[0] in acts;
      WakersAreFifo(Next(s, acts[0]), acts[1..], if ReplyTo(s, acts[0]).Accepted? then k - 1 else k);
    }
  }

  // ---------------------------------------------------------------------------------------------
  // Wakeups suffice
  // ---------------------------------------------------------------------------------------------

  /** If somebody sleeps, there is a woken receiver for every queued message. */
  ghost predicate WakeupsSuffice(s: State) {
    Asleep(s) != {} ==> |s.queue| <= |s.scheduled|
  }

  /** A send takes a waker that wakes nobody, while somebody sleeps and every woken receiver has its message. */
  ghost predicate WastesWaker(s: State, a: Action) {
    && a.Send? && !s.isClosed && s.noLongerEmpty != [] && s.noLongerEmpty[0] !in Asleep(s)
    && Asleep(s) != {} && |s.queue| == |s.scheduled|
  }

  /** A step keeps wakeups sufficient if and only if it is not a send that wastes the waker it takes. */
  lemma StepSufficesExactly(s: State, a: Action)
    requires Inv(s) && Enabled(s, a) && WakeupsSuffice(s)
    ensures WakeupsSuffice(Next(s, a)) <==> !WastesWaker(s, a)
  {
    match a {
      case Send(message) => SendSufficesExactly(s, message);
      case Recv(f) => RecvSuffices(s, f);
      case Cancel(f) => CancelSuffices(s, f);
      case _ =>
    }
  }

  lemma SendSufficesExactly(s: State, message: int)
    requires Inv(s) && WakeupsSuffice(s)
    ensures WakeupsSuffice(SendStep(s, message)) <==> !WastesWaker(s, Send(message))
  {}

  lemma RecvSuffices(s: State, f: nat)
    requires Inv(s) && Enabled(s, Recv(f)) && WakeupsSuffice(s)
    ensures WakeupsSuffice(RecvStep(s, f))
  {}

  lemma CancelSuffices(s: State, f: nat)
    requires Inv(s) && WakeupsSuffice(s)
    ensures WakeupsSuffice(CancelStep(s, f))
  {
    var s' := CancelStep(s, f);
    if Asleep(s') != {} {
      assert Asleep(s') <= Asleep(s);
      if f in s.parked && f !in s.scheduled {
        assert |s.scheduled + {f}| == |s.scheduled| + 1;
      } else {
        assert s'.scheduled == s.scheduled;
      }
    }
  }

  /** Wakeups suffice after every step of the run. */
  ghost predicate AlwaysSuffice(s: State, acts: seq<Action>)
    decreases |acts|
  {
    acts == [] || (WakeupsSuffice(Next(s, acts[0])) && AlwaysSuffice(Next(s, acts[0]), acts[1..]))
  }

  ghost predicate NeverWastes(s: State, acts: seq<Action>)
    decreases |acts|
  {
    acts == [] || (!WastesWaker(s, acts[0]) && NeverWastes(Next(s, acts[0]), acts[1..]))
  }

  /** Cancellations included: wakeups suffice all along a run if and only if no send of it wastes its waker. */
  lemma {:induction false} RunSufficesExactly(s: State, acts: seq<Action>)
    requires Inv(s) && WakeupsSuffice(s) && Run(s, acts)
    ensures AlwaysSuffice(s, acts) <==> NeverWastes(s, acts)
    decreases |acts|
  {
    if acts != [] {
      StepKeeps(s, acts[0]);
      StepSufficesExactly(s, acts[0]);
      if !WastesWaker(s, acts[0]) {
        RunSufficesExactly(Next(s, acts[0]), acts[1..]);
      }
    }
  }

  /** The wakers are those of the sleeping receivers, each once. */
  ghost predicate WakersAreLive(s: State) {
    && Inv(s)
    && (forall i, j :: 0 <= i < j < |s.noLongerEmpty| ==> s.noLongerEmpty[i] != s.noLongerEmpty[j])
    && (forall f :: f in s.noLongerEmpty ==> f in Asleep(s))
  }

  /** Cancelling a sleeping receiver is what leaves a waker behind that wakes nobody. */
  ghost predicate Careful(s: State, a: Action) {
    a.Cancel? ==> a.fiber !in Asleep(s)
  }

  lemma StepKeepsLiveExactly(s: State, a: Action)
    requires WakersAreLive(s) && Enabled(s, a)
    ensures WakersAreLive(Next(s, a)) <==> Careful(s, a)
  {
    StepKeeps(s, a);
    var s' := Next(s, a);
    match a {
      case Send(message) =>
        if !s.isClosed && s.noLongerEmpty != [] {
          forall f | f in s'.noLongerEmpty ensures f in Asleep(s') {
            var i :| 0 <= i < |s'.noLongerEmpty| && s'.noLongerEmpty[i] == f;
            assert f == s.noLongerEmpty[i + 1] && f in s.noLongerEmpty && s.noLongerEmpty[0] != f;
          }
        }
      case Cancel(f) =>
        if f in Asleep(s) {
          assert f in s'.noLongerEmpty && f !in Asleep(s');
        } else {
          assert s'.noLongerEmpty == s.noLongerEmpty && Asleep(s') == Asleep(s);
        }
      case Recv(f) =>
        assert f !in s.noLongerEmpty;
        assert forall g :: g in Asleep(s) ==> g in Asleep(s');
      case _ =>
    }
  }

  ghost predicate CarefulRun(s: State, acts: seq<Action>)
    decreases |acts|
  {
    acts == [] || (Enabled(s, acts[0]) && Careful(s, acts[0]) && CarefulRun(Next(s, acts[0]), acts[1..]))
  }

  lemma {:induction false} CarefulRunKeeps(s: State, acts: seq<Action>)
    requires CarefulRun(s, acts) && WakersAreLive(s) && WakeupsSuffice(s)
    ensures Run(s, acts) && WakersAreLive(After(s, acts)) && WakeupsSuffice(After(s, acts))
    decreases |acts|
  {
    if acts != [] {
      StepKeepsLiveExactly(s, acts[0]);
      StepSufficesExactly(s, acts[0]);
      CarefulRunKeeps(Next(s, acts[0]), acts[1..]);
    }
  }

  /**
   In every run that cancels no sleeping receiver: whenever somebody sleeps, every queued message has a woken
   receiver; in particular, once all woken receivers have run, nobody sleeps beside a message.
   */
  lemma WakeupsAlwaysSuffice(acts: seq<Action>)
    requires CarefulRun(EMPTY, acts)
    ensures var s := After(EMPTY, acts);
      && (Asleep(s) != {} ==> |s.queue| <= |s.scheduled|)
      && (s.scheduled == {} && s.queue != [] ==> s.parked == {})
  {
    CarefulRunKeeps(EMPTY, acts);
    var s := After(EMPTY, acts);
    if s.scheduled == {} && s.queue != [] {
      assert Asleep(s) == s.parked;
    }
  }

  lemma RunOneMore(s: State, a: Action, rest: seq<Action>)
    requires Enabled(s, a) && Run(Next(s, a), rest)
    ensures Run(s, [a] + rest) && After(s, [a] + rest) == After(Next(s, a), rest)
  {
    assert ([a] + rest)[1..] == rest;
  }

  /**
   Why the hypothesis is there: a cancelled receiver leaves its waker behind, the next send spends itself on that
   waker, and another receiver sleeps beside the message.
   */
  lemma StaleWakerLosesWakeup() returns (acts: seq<Action>)
    ensures acts == [Recv(1), Recv(2), Cancel(1), Recv(1), Send(7)] && Run(EMPTY, acts)
    ensures var s := After(EMPTY, acts); s.queue == [7] && s.scheduled == {} && Asleep(s) == {2}
  {
    acts := [Recv(1), Recv(2), Cancel(1), Recv(1), Send(7)];
    var s1 := Next(EMPTY, Recv(1));
    var s2 := Next(s1, Recv(2));
    var s3 := Next(s2, Cancel(1));
    var s4 := Next(s3, Recv(1));
    var s5 := Next(s4, Send(7));
    assert s2 == State([], [1, 2], false, {1, 2}, {}, {});
    assert s4 == State([], [1, 2], false, {2}, {}, {1});
    assert s5 == State([7], [2], false, {2}, {}, {1});
    RunOneMore(s4, Send(7), []);
    RunOneMore(s3, Recv(1), [Send(7)]);
    RunOneMore(s2, Cancel(1), [Recv(1), Send(7)]);
    RunOneMore(s1, Recv(2), [Cancel(1), Recv(1), Send(7)]);
    RunOneMore(EMPTY, Recv(1), [Recv(2), Cancel(1), Recv(1), Send(7)]);
    assert acts == [Recv(1)] + [Recv(2), Cancel(1), Recv(1), Send(7)];
    assert [Recv(2), Cancel(1), Recv(1), Send(7)] == [Recv(2)] + [Cancel(1), Recv(1), Send(7)];
    assert [Cancel(1), Recv(1), Send(7)] == [Cancel(1)] + [Recv(1), Send(7)];
    assert [Recv(1), Send(7)] == [Recv(1)] + [Send(7)];
    assert [Send(7)] == [Send(7)] + [];
  }
}
