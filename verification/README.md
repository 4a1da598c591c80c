# Uringy, modelled and proved in Dafny

Uringy is a single-threaded fiber runtime over io_uring, with an unbounded channel, a circular byte buffer and a NATS
codec built for it. This project models these parts and proves what they promise. `dafny verify dfyconfig.toml` checks
all of it.

## The fiber runtime

Files: `Fibers`, `FiberTree`, `Kernel`, `Syscall`, `FiberMachine`, `FiberInvariant`, `FiberSteps`, `FiberRuns`,
`FiberTheorems`, `FiberRecycling`, `FiberDeadlock`, `FiberEffects`, `FiberCalls`, `FiberTraces`, `RuntimeState`.

`FiberMachine` is the runtime as a small-step machine. Whatever happens between two context switches is one step, or a
few steps that only the kernel can come between. User code is a free choice of its next action: spawn, join, drop a
handle, forget a handle, cancel, yield, a system call, return or panic. Every `assert!`, `unwrap` and slab access that
would panic leads to the mode `Faulted`, so that "no assertion fails" is the statement that `Faulted` is not reached.
`Kernel` is the other side: a submission queue taken in order, requests in flight, completions, and cancellations that
act on whatever is in flight with their target user data, which is nothing but a recycled slot index.

`RuntimeState` and `Syscall` are the same code in its own form: classes whose methods update the slab, the ready queue,
the stack pool and the ring in place, with the source's recursion in `cancel`, its loops in `process_io`, `issue` and
`process_completed`, and its assertions as `assert`s. Each method is proved to do what the machine does; `process_io` is
proved to be a run of the machine that dispatches one fiber, or waits forever, and that only in a cycle of waits.

The theorems are about every run, that is, every interleaving of user actions, dispatches and kernel answers.
`FiberEffects` and `FiberCalls` say what whole steps do, apart from the functions that the machine is made of: which
fibers a cancellation, a panic or a completion reaches, what a join and a system call yield in terms of what fibers
returned and the kernel answered in the same run, and that cancellations are passed on to the kernel.

**The run hypothesis.** `is_completed` is set before a fiber waits for its children, and `join` and the drop of a handle
test only this flag. A handle consumed in between frees a slot whose fiber is still parked. The theorems therefore speak
of runs in which no handle is consumed while its fiber has completed but not finished (`Timely`, `TimelyRun`,
`Reached`). `FiberRuns.StepKeepsExactly` shows that this condition is exact: a step keeps the invariant if and only if it
meets it. `FiberTraces.EarlyDropPanics` is a thirteen-step run that violates it and panics.

**Deadlock.** Nothing stops a fiber from joining one that already waits for it, directly or through children and other
joins. `FiberDeadlock.StepKeepsAcyclicExactly` says when this happens: a step keeps the waits free of cycles if and only
if it is not a join that parks on a target from which the waits lead back to the joiner, which one could test before the
call. In a run without such a join the runtime never blocks for nothing (`FiberDeadlock.DeadlockFreedom`); joining
descendants only is one way to avoid them (`FiberDeadlock.DescendantJoinsAreSafe`). After such a join, no fiber on the
cycle ever finishes unless one of its joins is cancelled (`FiberDeadlock.CycleNeverFinishes`), and
`FiberTraces.SelfJoinBlocksForever` is a run in which everything stops.

Some fields are bookkeeping that no operation reads: a fiber's `stamp` (when it was created, since slots are reused) and
`joiner`, the `op` of a kernel entry, the `hits` of a request and the kernel's `answers`, and in the state `handles`,
`clock` and `returned`.

## The NATS codec

Files: `Nom`, `NatsWire`, `NatsServer`, `NatsGrammar`, `NatsClient`, `NatsLiterals`. The server side is the decoder,
function by function, over the streaming parsers of nom, beside a printer for the grammar in the source's
documentation. Which operations survive printing and decoding is proved exactly (`NatsGrammar.DecodesPrintedExactly`).
The client side is the encoder over a writer that may run full at any byte, beside a reader for its grammar.
Overflow-checked `u64` parsing, decimal printing and UTF-8 validation are spelled out. `NatsLiterals` states the
language of the decoder and the output of the encoder in literal bytes, apart from the constants and character classes
that both are made of: the decoder decodes an operation from the first bytes of a buffer if and only if these bytes
spell it.

## The channel

File: `Channel`. A class with the source's three fields, and a machine in which senders, receivers, closes and
cancellations interleave and one turn of `recv`'s loop is one step. Conservation, order and closing hold in all runs.
That wakeups suffice is proved exactly: they suffice all along a run if and only if no send in it takes a waker that wakes
nobody while a receiver sleeps and every woken one has its message. Only cancelling a sleeping receiver leaves such a
waker behind; `Channel.StaleWakerLosesWakeup` is a five-step run in which it costs a wakeup.

## The circular buffer

Files: `PowersOfTwo`, `CircularBuffer`. A class over an array that is mapped twice in a row, with cursors that wrap at
2^64, refines a pair of byte queues: the data, and the free bytes behind it. The refinement is exact as well.

## Where code and documentation differ

The models follow the code.

- `consume` and `commit` are commented as safe to overflow. They are not: once a cursor wraps, `commit` leaves the head
  above the tail, and `consume` no longer notices that too much was asked for (`CircularBuffer.StepRefinesExactly`,
  `CircularBuffer.HugeConsumeGoesBack`).
- `calculate_length` rounds a length of 0 up to 1, not to a whole page (`PowersOfTwo.WholePagesExactly`), so the second
  mapping would not start at a page and `circular_buffer` fails (`CircularBuffer.State.New`).
- A closed channel does not always wake its receivers: a close from the receiver's side wakes nobody
  (`Channel.ReceiverCloseWakesNobody`).
- The grammar documents subjects and subscription identifiers as text, and a `FIXME` says that identifiers are
  alphanumeric. The decoder takes subjects of letters, `.`, `*` and `>` and numeric identifiers: `MSG a1 1 0` and
  `MSG a x 0` are rejected (`NatsGrammar.AlphanumericsFail`, and in general `NatsGrammar.OtherSubjectFails` and
  `NatsGrammar.OtherSidFails`). An empty JSON text or error message is rejected too (`NatsGrammar.EmptyTextFails`), and
  spaces or tabs at the start of JSON are lost (`NatsGrammar.InfoLosesLeadingSpace`). `NatsGrammar.DecodesPrintedExactly`
  says which operations survive: those of `NatsServer.WellFormed`, and no others.

## Model

| member | source | states |
|---|---|---|
| FiberTheorems.NoLostWakeup | src/runtime/mod.rs:388-424 | In every reachable state each unfinished fiber runs, is in the ready queue exactly once, or is parked with a live wake source; ready entries are live unfinished fibers and never the running one |
| FiberTheorems.NoSpuriousWakeup | src/runtime/mod.rs:327-345 | Whenever a park of join, syscall or the wait for children returns, its reason is there (completion, result, cancellation, no children left); no assertion, unwrap or slab access ever fails |
| FiberTheorems.NoCrossGeneration | src/runtime/syscall.rs:34-73 | Although user data is a recycled slot, every completion and request belongs to a live fiber waiting for exactly that operation, and no AsyncCancel has hit or can still hit another operation than its own |
| FiberDeadlock.DeadlockFreedom | src/runtime/mod.rs:127-143 | In every run whose joins close no cycle of waits, process_io blocks in wait_for_completed only while an operation of a parked fiber is outstanding |
| FiberDeadlock.StepKeepsAcyclicExactly | src/runtime/mod.rs:318-333 | Any step of any kind keeps the waits free of cycles if and only if it is not a join that parks on a target whose waits lead back to the joiner |
| FiberDeadlock.AcyclicExactly | src/runtime/mod.rs:318-346 | The waits can be ranked so that all go up if and only if no fiber waits for itself through others |
| FiberDeadlock.RunStaysAcyclicExactly | src/runtime/mod.rs:318-346 | The waits stay free of cycles all along a run if and only if no join of it closes one |
| FiberDeadlock.DescendantJoinsAreSafe | src/runtime/mod.rs:318-346 | A run whose joins target descendants of the joiner, or finished fibers, closes no cycle |
| FiberDeadlock.CycleNeverFinishes | src/runtime/mod.rs:327-345 | After a join that closes a cycle, whatever the run does, no fiber on the cycle finishes and the join never returns, unless a fiber in the first park of a join on it is cancelled |
| FiberDeadlock.StepKeepsKept | src/runtime/mod.rs:258-346 | Fibers that keep each other, by children or joins, go on doing so through every step that cancels none of their first parks |
| FiberDeadlock.StepMovesRunning | src/runtime/mod.rs:127-402 | No step moves the continuation of an unfinished fiber other than the running one |
| FiberDeadlock.BlocksOnlyOnWork | src/runtime/mod.rs:141 | The same for any good state without a cycle of waits |
| FiberTheorems.StructuredConcurrency | src/runtime/mod.rs:226-241 | Parent and children links agree and form one tree of the unfinished fibers, rooted at slot 0; when start returns, no spawned fiber is unfinished |
| FiberTheorems.ParentsOutliveChildren | src/runtime/mod.rs:258-283 | A fiber never finishes, nor loses its slot, while it has an unfinished descendant |
| FiberTheorems.CancelExactly | src/runtime/mod.rs:145-157 | The recursion on a subtree flags exactly the subtree and appends to the ready queue, in pre-order and once each, exactly those of it that were not cancelled, not running and not queued; nothing else changes |
| FiberEffects.CancelsWhatItNames | src/runtime/mod.rs:356-449 | Cancelling a handle, oneself or propagating cancels exactly the subtree of the handle's fiber, of the caller, or of the root, and wakes, parents first and siblings in slot order, exactly those of it that were neither cancelled, running nor queued |
| FiberEffects.FlagsChangeExactly | src/runtime/mod.rs:145-157 | Through every step, a fiber becomes cancelled exactly by a cancellation of a subtree it is in, by its own completion, or by a panic that nobody waits for; it completes exactly when its closure returns |
| FiberEffects.EndOfFiber | src/runtime/mod.rs:264-271 | A panic that nobody waits for cancels every unfinished fiber and makes those that were not cancelled ready; any other end of a fiber cancels nobody and makes a waiting joiner ready |
| FiberEffects.StartsWithRoot | src/runtime/mod.rs:14-24 | start runs one uncancelled root fiber with its closure on its stack |
| FiberEffects.SpawnAddsChild | src/runtime/mod.rs:87-119 | spawn adds a child that is cancelled exactly if its parent is, at the back of the queue, on the stack pooled last or a new one; nothing else changes |
| FiberEffects.YieldGivesWay | src/runtime/mod.rs:430-434 | yield_now puts the caller behind every ready fiber and gives up the processor |
| FiberEffects.ReapWakesInOrder | src/runtime/mod.rs:129-133 | Completions wake exactly the fibers they are for, in their order, behind those that are ready already |
| FiberTree.PreOrderIsOrdered | src/runtime/mod.rs:154-156 | The visit comes to parents before descendants and to siblings, with all below them, in the order of their slots |
| FiberTheorems.CancellationIsClosed | src/runtime/mod.rs:145-157 | A cancelled fiber that has not completed has only cancelled descendants, even below completed ones, so cancelling it again changes nothing at all |
| FiberTheorems.JoinYieldsOwnOutcome | src/runtime/mod.rs:348-354 | What a join reads from the stack is what the very fiber its handle was made for returned, whatever slots and stacks were reused |
| FiberEffects.JoinYieldsReturn | src/runtime/mod.rs:250-256 | A join that yields an outcome yields the one with which the closure of that very fiber returned in this run |
| FiberEffects.StartYieldsReturn | src/runtime/mod.rs:26-27 | start yields the outcome with which the root's closure returned |
| FiberTheorems.JoinHasResult | src/runtime/mod.rs:343-346 | When the second park of a join returns there is a result to read, though the code does not test for it |
| FiberCalls.SyscallYieldsItsAnswer | src/runtime/mod.rs:474-488 | A system call that yields a result yields what the kernel, in this run, answered to the very operation this call issued |
| FiberCalls.CompletionsAreDelivered | src/runtime/mod.rs:129-133 | Every completion's result is handed to the live fiber that is on this operation |
| FiberCalls.StepAnswers | src/runtime/syscall.rs:34-52 | Only the kernel answers, and each operation once |
| FiberCalls.CancellationsReachTheKernel | src/runtime/mod.rs:480-482 | A cancelled fiber that still waits for its result has its AsyncCancel queued behind its operation, or it has hit the request, or the completion is posted |
| FiberCalls.SubmissionsFit | src/runtime/syscall.rs:60-66 | The submission queue never exceeds its capacity, so pushing an entry never fails |
| FiberCalls.StepKeepsCalls | src/runtime/mod.rs:459-485 | Every step keeps operations distinct, results equal to answers, and cancellations under way |
| FiberTheorems.StartYieldsRootOutcome | src/runtime/mod.rs:26-27 | What start reads from the root's stack, after that stack went to the pool, is what the root returned |
| FiberTheorems.ReturnedIsPermanent | src/runtime/mod.rs:250-256 | What a fiber returned is never overwritten in any run |
| FiberTheorems.StacksAreConserved | src/runtime/mod.rs:87-99 | Every stack ever mapped is either in the pool, once, or owned by exactly one slot |
| FiberTheorems.EverythingIsReturned | src/runtime/mod.rs:372-385 | If no handle is leaked, then when the root has returned all other slots are free and all stacks are in the pool |
| FiberRecycling.FreedExactlyOnce | src/runtime/mod.rs:285-292 | A slot is freed in exactly one of two ways, by its handle after the fiber finished or by the fiber after its handle went; its stack is pushed once, and no other slot is freed with it |
| FiberTheorems.FifoDispatch | src/runtime/mod.rs:129-138 | A fiber at position k of the ready queue is dispatched by exactly the k+1st following pop, whatever spawns, cancellations, completions come between |
| FiberRuns.StepKeepsExactly | src/runtime/mod.rs:318-385 | A step leads from a good state to a good state if and only if it consumes no handle of a fiber that has completed but still waits for children |
| FiberRuns.RunKeeps | src/runtime/mod.rs:127-402 | Every timely run keeps the invariant |
| FiberRuns.StepHasShape | src/runtime/mod.rs:226-385 | Parents never change, slots are filled by spawn only, a fiber ends only by running without children, joins begin in join only, handles are used up visibly or forgotten |
| FiberSteps.StepKeeps | src/runtime/mod.rs:127-485 | Each action of user code, runtime and kernel keeps the invariant |
| FiberSteps.StartIsGood | src/runtime/mod.rs:14-24 | A fresh runtime with its root running satisfies the invariant |
| FiberSteps.CancelKeeps | src/runtime/mod.rs:145-157 | Cancelling any fiber's subtree keeps the invariant |
| FiberSteps.ReapKeeps | src/runtime/mod.rs:129-133 | Applying all completions keeps the invariant: each is for a fiber that waits for it and has no result yet |
| FiberSteps.FinishKeeps | src/runtime/mod.rs:263-292 | The end of a trampoline keeps the invariant, for the root, a joined, a detached and a panicked fiber |
| FiberTree.PreOrderIsSubtree | src/runtime/mod.rs:154-156 | The recursion over ordered child sets visits exactly the subtree, each fiber once |
| FiberTraces.EarlyDropPanics | src/runtime/mod.rs:372-385 | A concrete run without the run hypothesis: a handle dropped between completion and the end of the wait for children makes the child's end panic |
| FiberTraces.SelfJoinBlocksForever | src/runtime/mod.rs:318-333 | A concrete run in which a fiber joins itself: the runtime blocks and no action is possible any more |
| RuntimeStates.RuntimeState.constructor | src/runtime/mod.rs:14-24 | A new runtime with a running root fiber |
| RuntimeStates.RuntimeState.CreateFiber | src/runtime/mod.rs:87-119 | The stack is the pool's last or a new one, and the slot holds a fresh fiber |
| RuntimeStates.RuntimeState.Spawn | src/runtime/mod.rs:226-241 | A new child, cancelled if its parent is, is at the back of the queue, and its handle is new |
| RuntimeStates.RuntimeState.ScheduleWith | src/runtime/mod.rs:417-424 | The fiber is appended unless queued already |
| RuntimeStates.RuntimeState.Cancel | src/runtime/mod.rs:145-157 | The mutating recursion terminates and equals its closed form: flags on the pre-order, wakeups in its order |
| RuntimeStates.RuntimeState.CancelHandle | src/runtime/mod.rs:356-361 | The subtree of the handle's fiber is cancelled and nothing else |
| RuntimeStates.RuntimeState.CancelSelf | src/runtime/mod.rs:436-441 | The caller's subtree is cancelled and nothing else |
| RuntimeStates.RuntimeState.CancelPropagating | src/runtime/mod.rs:443-449 | The whole tree is cancelled, from a handle or from the caller |
| RuntimeStates.VisitAfterVisit | src/runtime/mod.rs:154-156 | Cancelling disjoint subtrees one after the other is one visit of both |
| RuntimeStates.RuntimeState.DropHandle | src/runtime/mod.rs:373-384 | The handle is gone, and slot and stack are given back if the fiber has completed |
| RuntimeStates.RuntimeState.Drop | src/runtime/mod.rs:372-385 | Dropping a held handle is the machine's step and keeps the invariant |
| RuntimeStates.RuntimeState.ReadOutput | src/runtime/mod.rs:348-354 | The stack of a completed fiber holds what that fiber returned |
| RuntimeStates.RuntimeState.Join | src/runtime/mod.rs:318-333 | Join up to its first park: the target's own outcome exactly if it has completed, the cancellation error exactly if it has not and the joiner alone is cancelled, otherwise a park; its assertion holds |
| RuntimeStates.RuntimeState.ContinueJoin | src/runtime/mod.rs:335-343 | Join after its first park: the target's own outcome exactly if it has completed, the cancellation error exactly if it has not and is not cancelled, otherwise a second park; the assertion that the joiner is cancelled holds |
| RuntimeStates.RuntimeState.EndJoin | src/runtime/mod.rs:343-346 | Join after its second park yields the target's own outcome |
| RuntimeStates.RuntimeState.Park | src/runtime/mod.rs:388-402 | The running fiber is suspended at the given point and process_io comes next |
| RuntimeStates.RuntimeState.Syscall | src/runtime/mod.rs:459-474 | Syscall up to its first park; no earlier result is pending, and a cancelled fiber issues nothing |
| RuntimeStates.RuntimeState.ContinueSyscall | src/runtime/mod.rs:476-482 | After the first park: the kernel's answer to this operation, or an AsyncCancel for it under way; the assertion holds |
| RuntimeStates.RuntimeState.EndSyscall | src/runtime/mod.rs:482-485 | After the second park: the kernel's answer to this operation |
| RuntimeStates.RuntimeState.ReadSyscallResult | src/runtime/mod.rs:487-488 | The result is taken out, and the unwrap succeeds |
| RuntimeStates.RuntimeState.Leave | src/runtime/mod.rs:274-292 | The fiber leaves its parent, wakes a completed parent without other children, and frees itself if detached |
| RuntimeStates.RuntimeState.FinishSpawned | src/runtime/mod.rs:264-292 | An unjoined panic cancels everybody left; otherwise nobody is cancelled and a joiner is woken; then the fiber leaves |
| RuntimeStates.RuntimeState.Finish | src/runtime/mod.rs:53-63 | The end of either trampoline; the root gives back its stack and start returns; only an unjoined panic of another fiber cancels |
| RuntimeStates.RuntimeState.Return | src/runtime/mod.rs:250-261 | The outcome is stored and the fiber ends or waits for its children |
| RuntimeStates.RuntimeState.DeliverOne | src/runtime/mod.rs:130-132 | A completion's result reaches the fiber that its user data names, which exists and becomes ready |
| RuntimeStates.RuntimeState.Deliver | src/runtime/mod.rs:129-133 | The loop over the completions is the machine's delivery of all of them, in order |
| RuntimeStates.RuntimeState.Reap | src/runtime/mod.rs:129-133 | The top of the loop in process_io is the machine's step; with nobody ready afterwards there was nothing to apply |
| RuntimeStates.RuntimeState.TakeReady | src/runtime/mod.rs:135-138 | The oldest ready fiber runs next, and its slot is there |
| RuntimeStates.RuntimeState.Turn | src/runtime/mod.rs:128-142 | One turn of the loop dispatches, or waits once and makes progress, or waits forever, which it does only in a cycle of waits |
| RuntimeStates.RuntimeState.Wait | src/runtime/mod.rs:141 | Waiting leaves a completion to process, or never comes back and then no action is possible any more |
| RuntimeStates.RuntimeState.ProcessIo | src/runtime/mod.rs:127-143 | Whatever the kernel answers, the loop is a run of the machine that ends with exactly one dispatch, or is stuck forever, and that only if the waits form a cycle |
| RuntimeStates.WaitIsRun | src/runtime/mod.rs:141 | Waiting with something to wait for is a run of the machine |
| RuntimeStates.WaitIsForever | src/runtime/mod.rs:141 | Waiting with nothing to wait for leaves no action possible, and happens only in a cycle of waits |
| Syscall.Interface.Submit | src/runtime/syscall.rs:60-65 | The kernel takes every submission, oldest first |
| Syscall.Interface.Issue | src/runtime/syscall.rs:56-67 | The entry is added at the end, after submitting if the queue is full; there is room for it, and the loop ends |
| Syscall.Interface.Cancel | src/runtime/syscall.rs:70-73 | An AsyncCancel for the target is issued under the reserved user data and so is under way |
| Syscall.Interface.ProcessCompleted | src/runtime/syscall.rs:34-52 | The completions of operations, in order, without those of cancellations; the queue is drained |
| Syscall.Interface.WaitForCompleted | src/runtime/syscall.rs:27-30 | Everything is submitted, and it comes back, with at least one completion there, exactly if there is something completed or in flight |
| Kernel.SubmitKeeps | src/runtime/syscall.rs:60-65 | Submitting changes no operation's outstanding count and keeps cancellations on their own operation |
| Kernel.CompleteKeeps | src/runtime/syscall.rs:27-30 | A request that completes stays outstanding exactly once, as a completion |
| Kernel.IssueKeeps | src/runtime/syscall.rs:56-73 | Issuing adds exactly its own operation; an AsyncCancel is safe if nothing else is outstanding for its target |
| Kernel.IssueFits | src/runtime/syscall.rs:60-66 | A queue within its capacity stays within it |
| Kernel.SubmitKeepsUnderWay | src/runtime/syscall.rs:60-65 | A cancellation under way stays so when the queue is submitted: its operation is before it, in flight, or completed |
| Kernel.IssuePutsUnderWay | src/runtime/syscall.rs:70-73 | Issuing an AsyncCancel puts it under way for its target |
| Kernel.SubmitKeepsAnswers | src/runtime/syscall.rs:60-65 | Submitting changes no answer, and what is still to be done has none |
| Kernel.OfOperationsAppend | src/runtime/syscall.rs:37-49 | One more completion is one more result, unless it is a cancellation's |
| NatsServer.DecodeIsStable | src/ecosystem/nats/proto.rs:156-277 | Appending any bytes changes neither a decoded operation and its size nor a rejection; a success takes at least one byte |
| NatsServer.ChunkingIsIrrelevant | src/ecosystem/nats/proto.rs:156-165 | Decoding a stream chunk by chunk gives what decoding it at once gives, however it is cut |
| NatsServer.RoundTrip | src/ecosystem/nats/proto.rs:113-153 | Decoding a printed operation, whatever follows it, gives the operation and its full length |
| NatsServer.PrefixIsTooSmall | src/ecosystem/nats/proto.rs:156-165 | Every proper prefix of a printed operation gives BufferTooSmall |
| NatsServer.AcceptedPrefixIsTooSmall | src/ecosystem/nats/proto.rs:156-165 | So does every proper prefix of anything that is decoded, however it is spelled |
| NatsLiterals.DecodesExactly | src/ecosystem/nats/proto.rs:178-277 | An operation is decoded from the first n bytes if and only if these literally spell it: keyword in any letter case, gaps of spaces and tabs, dotted subjects, digits with their value, counted payload, line end |
| NatsLiterals.WordsDecode | src/ecosystem/nats/proto.rs:222-248 | The bytes of PING, PONG and +OK decode to these operations, whatever follows |
| NatsServer.AcceptsWellFormed | src/ecosystem/nats/proto.rs:178-277 | Whatever is accepted is well-formed, and re-prints to something that decodes to the same operation |
| NatsServer.StreamRoundTrip | src/ecosystem/nats/proto.rs:113-153 | A printed sequence of operations decodes to that sequence with nothing left |
| NatsGrammar.DecodesPrintedExactly | src/ecosystem/nats/proto.rs:113-277 | An operation survives being printed and decoded if and only if it is well-formed: token subjects, 64-bit numbers, non-empty one-line UTF-8 texts, JSON that starts with no space |
| NatsGrammar.OtherSubjectFails | src/ecosystem/nats/proto.rs:250-259 | A subject followed by a byte that neither continues nor separates it is rejected, whatever follows |
| NatsGrammar.OtherSidFails | src/ecosystem/nats/proto.rs:202 | A subscription identifier that does not start with a digit is rejected, whatever follows |
| NatsGrammar.AlphanumericsFail | src/ecosystem/nats/proto.rs:119-126 | Two concrete messages of the documented grammar, with a digit in the subject and a letter as the identifier, give InvalidProtocol |
| NatsGrammar.EmptyTextFails | src/ecosystem/nats/proto.rs:186-236 | INFO without JSON and -ERR without a message give InvalidProtocol |
| NatsGrammar.InfoLosesLeadingSpace | src/ecosystem/nats/proto.rs:186-193 | Spaces and tabs at the start of JSON are dropped by decoding |
| NatsServer.OperationStable | src/ecosystem/nats/proto.rs:178-184 | The six alternatives and the line end together are stable under appended bytes |
| NatsServer.InfoStable | src/ecosystem/nats/proto.rs:186-193 | The same for INFO |
| NatsServer.MsgStable | src/ecosystem/nats/proto.rs:195-218 | The same for MSG, through its optional reply subject and its payload |
| NatsServer.ReplyStable | src/ecosystem/nats/proto.rs:205 | The same for the optional reply: absent stays absent and present stays present |
| NatsServer.PayloadStable | src/ecosystem/nats/proto.rs:261-265 | The same for a counted payload of any bytes |
| NatsServer.ErrStable | src/ecosystem/nats/proto.rs:228-236 | The same for -ERR |
| NatsServer.MsgReads | src/ecosystem/nats/proto.rs:195-218 | A printed MSG is parsed back in full |
| Nom.U64Stable | src/ecosystem/nats/proto.rs:262 | A number is complete only when its end is seen, and a success is below 2^64 |
| Nom.NumberReads | src/ecosystem/nats/proto.rs:262 | Digits are read as their value, leading zeros or not, if and only if it fits 64 bits |
| Nom.DecimalIsCanonical | src/ecosystem/nats/proto.rs:76 | A number is printed as its own digits without a leading zero |
| Nom.DecimalRoundTrip | src/ecosystem/nats/proto.rs:262 | Every number below 2^64 is printed and parsed back without overflow |
| NatsClient.Encode | src/ecosystem/nats/proto.rs:56-110 | The writer receives the operation's bytes, in order, as far as it has room; success if and only if all fit; Hpub writes nothing |
| NatsClient.EncodeConnect | src/ecosystem/nats/proto.rs:60-63 | The bytes of CONNECT up to the line end |
| NatsClient.EncodePub | src/ecosystem/nats/proto.rs:64-79 | The bytes of PUB up to the last line end |
| NatsClient.EncodeTokens | src/ecosystem/nats/proto.rs:69-75 | Command, token and optional second token, each with its space |
| NatsClient.EncodeSub | src/ecosystem/nats/proto.rs:81-94 | The bytes of SUB up to the line end |
| NatsClient.EncodeUnsub | src/ecosystem/nats/proto.rs:95-102 | The bytes of UNSUB up to the line end, with and without a limit |
| NatsLiterals.EncodesLiterally | src/ecosystem/nats/proto.rs:56-110 | The encoding of each operation, byte by byte, with numbers in plain decimal digits |
| NatsClient.ReadsBack | src/ecosystem/nats/proto.rs:11-53 | A reader of the documented grammar recovers every well-formed encoded operation and stops right behind it |
| NatsClient.EncodingIsPrefixFree | src/ecosystem/nats/proto.rs:56-110 | Encoding is injective and no encoding is a prefix of another |
| NatsClient.StreamHasOneReading | src/ecosystem/nats/proto.rs:56-110 | A concatenation of encodings determines the operations |
| Channel.MessagesAreConserved | src/sync/channel.rs:32-48 | In every run, queued then sent messages are the received then still queued ones, in order |
| Channel.ClosedIsForGood | src/sync/channel.rs:35-38 | The closed flag never resets and no send succeeds after it is set |
| Channel.SendIsRefusedExactly | src/sync/channel.rs:35-47 | In every run, a send is refused, as closed, if and only if either side has closed before |
| Channel.RecvRepliesExactly | src/sync/channel.rs:110-123 | In every run, a receive yields the oldest message sent and not taken; without one it is refused as closed if either side has closed, else as cancelled if the receiver is, else it parks |
| Channel.QueueCanBeDrained | src/sync/channel.rs:106-123 | Queued messages can be received after a close and after a cancellation; the errors come after them, closed before cancelled |
| Channel.StepKeeps | src/sync/channel.rs:106-130 | Every sleeping receiver has a waker in the list and is not cancelled, through every action |
| Channel.SenderCloseWakesAll | src/sync/channel.rs:83-91 | After a sender-side close nobody is left parked unwoken, ever |
| Channel.ReceiverCloseWakesNobody | src/sync/channel.rs:147-150 | After a receiver-side close a sleeping receiver is still asleep at the end of a run if and only if the run has no sender-side close and no cancellation of it |
| Channel.WakersAreFifo | src/sync/channel.rs:42-45 | The waker at position k moves up by one with each accepted message and by nothing else |
| Channel.StepSufficesExactly | src/sync/channel.rs:32-48 | A step keeps queued messages covered by woken receivers if and only if it is not a send that wastes its waker |
| Channel.RunSufficesExactly | src/sync/channel.rs:106-130 | Wakeups suffice all along a run, cancellations included, if and only if no send of it wastes its waker |
| Channel.StepKeepsLiveExactly | src/sync/channel.rs:125-128 | The wakers stay exactly those of the sleeping receivers if and only if no sleeping receiver is cancelled |
| Channel.WakeupsAlwaysSuffice | src/sync/channel.rs:106-130 | In every run that cancels no sleeping receiver, if any receiver sleeps then there are at most as many messages as woken receivers |
| Channel.StaleWakerLosesWakeup | src/sync/channel.rs:42-45 | A concrete run in which the waker of a cancelled receiver costs another receiver its wakeup |
| Channel.ChannelState.Send | src/sync/channel.rs:32-48 | Refused as closed exactly when closed; otherwise the message is queued and the oldest waker used |
| Channel.ChannelState.CloseSender | src/sync/channel.rs:83-91 | The draining loop closes the channel and reaches every waker |
| Channel.ChannelState.CloseReceiver | src/sync/channel.rs:147-150 | The flag is set and nothing else |
| Channel.ChannelState.RecvTurn | src/sync/channel.rs:107-129 | One turn of the loop: message, closed, cancelled, or a park with a waker at the back |
| CircularBuffer.StepRefinesExactly | src/circular_buffer.rs:75-186 | Every write, commit and consume does what the byte queues do, panics included, if and only if it wraps no cursor |
| CircularBuffer.CommitRefinesExactly | src/circular_buffer.rs:125-129 | Commit moves the oldest free bytes to the end of the data, or panics if there are too few, exactly if the tail does not pass 2^64 |
| CircularBuffer.ConsumeRefinesExactly | src/circular_buffer.rs:76-79 | Consume frees the oldest data, or panics if there is too little, exactly if the head does not pass 2^64 |
| CircularBuffer.HugeConsumeGoesBack | src/circular_buffer.rs:76-79 | A concrete argument that the assertion in consume lets pass, and that brings a consumed byte back |
| CircularBuffer.RunRefines | src/circular_buffer.rs:75-186 | With fewer than 2^64 bytes committed in all, every run that the byte queues allow is a run of the buffer and its slices are the queues |
| CircularBuffer.BytesComeOutInOrder | src/circular_buffer.rs:93-129 | Data is exactly the committed bytes not yet consumed, in order, over every such run |
| CircularBuffer.QueueConserves | src/circular_buffer.rs:75-129 | The byte queues lose, duplicate and reorder nothing |
| CircularBuffer.SlicesPartitionMemory | src/circular_buffer.rs:93-155 | Physically the two slices are disjoint and cover all bytes |
| CircularBuffer.SliceIsMapped | src/circular_buffer.rs:93-155 | Both slices lie inside the doubled mapping, and their bytes are those at cursor modulo length |
| CircularBuffer.WriteChangesOne | src/circular_buffer.rs:107-155 | A write through one slice changes one byte of it and none of the other slice |
| CircularBuffer.State.constructor | src/circular_buffer.rs:42-50 | A new buffer of a power of two has no data and its whole length free |
| CircularBuffer.State.New | src/circular_buffer.rs:30-51 | An empty buffer whose length is the least power of two that is at least the length asked for and a page; it fails exactly for lengths above 2^62 and for length 0 |
| CircularBuffer.SizeIsMappedExactly | src/circular_buffer.rs:31-40 | The calculated size is whole pages and fits a file length if and only if the length is neither above 2^62 nor 0 (or pages are single bytes) |
| CircularBuffer.State.Consume | src/circular_buffer.rs:76-79 | The head moves with wrap-around, and the assertion comes after |
| CircularBuffer.State.Commit | src/circular_buffer.rs:125-129 | The assertion comes first, and the tail moves with wrap-around |
| CircularBuffer.State.WriteData | src/circular_buffer.rs:107-116 | A write at an index of the data slice, or a panic out of bounds |
| CircularBuffer.State.WriteUninit | src/circular_buffer.rs:157-166 | A write at an index of the uninitialised slice, or a panic out of bounds |
| CircularBuffer.State.ReadData | src/circular_buffer.rs:93-105 | A read through the mirrored address gives the byte of the data slice |
| PowersOfTwo.P2ModuloIsModulo | src/circular_buffer.rs:196-200 | n AND (m - 1) is n modulo m for every n and every power of two m |
| PowersOfTwo.CalculatesLeastPower | src/circular_buffer.rs:53-67 | For a length of at least 1 the result is the least power of two that is at least the length and a page, hence whole pages, and it fails only beyond 2^63 |
| PowersOfTwo.WholePagesExactly | src/circular_buffer.rs:53-67 | A result is whole pages if and only if the length is not 0 (or pages are single bytes); length 0 yields 1 |

## Left out

- FiberTheorems.NoLostWakeup: on timely runs only, see the run hypothesis; the same holds for every theorem that starts from `Reached`, and `FiberRuns.StepKeepsExactly` says when it is met.
- RuntimeStates.RuntimeState.Cancel: for slabs that form a tree, which all reachable ones do; on others the machine faults.
- RuntimeStates.RuntimeState.ProcessIo: which request the kernel finishes, and how, is a parameter; in each wait the kernel finishes one request, and none if a completion is already there; the machine's own actions allow any number.
- RuntimeStates.RuntimeState.Spawn: which vacant slot the slab picks is a parameter, so the theorems hold for every choice; slots are below the reserved user data.
- RuntimeStates.RuntimeState.ReadSyscallResult: the sign of the result and its translation to errors are left to the caller.
- CircularBuffer.BytesComeOutInOrder: for runs that do not overwrite bytes through the data slice; `CircularBuffer.RunRefines` covers those too.
- CircularBuffer.SlicesPartitionMemory: for a tail that has not wrapped. Additions to the cursors wrap as in the source; the subtractions `tail - head` and `length - data_len` are those of a build with overflow checks, where they panic once the tail has wrapped. In a build without checks they wrap to the right lengths, and what then goes wrong is the assertion in `consume`, which this model does not follow.
- Channel.ChannelState.RecvTurn: the loop of `recv` is cut at its park, where other fibers act; a stale waker that reaches a fiber parked elsewhere, or a slot that has been freed, is not followed into the runtime.
- Raw use of `park` and `Waker` by user code beside the runtime's own parks; the channel is a machine of its own for this reason.
- Machine code, stack layout, guard pages and the mapping of stacks: a stack is an identity holding a closure or an outcome, and a continuation is the place where its fiber resumes.
- The real io_uring: overflow of the completion queue, interrupted waits, flags of completions, and batching.
- CircularBuffer.State.New: other refusals of the operating system, such as too little memory; page sizes that are no power of two.
- Other errors of memory maps and files, huge pages, and the unmapping in destructors; the circular buffer's memory is an array and mapping it twice is address arithmetic.
- Reference counts of senders and receivers: the drop of the last one is the close it performs.
- nom's error values: errors and failures are one result, and the number of missing bytes is not modelled.
- `Hpub` and `Hmsg`, which the source does not implement.
- Time, files, sockets and HTTP: thin wrappers around system calls or other crates, which would add easy members only.
- Panic payloads, debug output, macros and thread-local storage.
