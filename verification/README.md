# Verification of the mini-RTOS

A Dafny model of the preemptive mini-RTOS for the STM32F411: the scheduler, priority inheritance,
semaphores, mutexes, queues, delays and timeouts, task creation and the context switch, with
proofs of what the design promises over every run.

## How the model is built

The model has two layers, and the lower one is proved to refine the upper one.

- **The state machine** (`KernelState.dfy`, `KernelSpec.dfy`). A `State` holds the task control
  blocks, semaphores, mutexes, queues, round-robin cursors, the wrapping tick and wait-sequence
  counters, the pending-switch flag and the recorded fault. Each API call's critical section, each
  call from an interrupt, the tick interrupt, the return of a task function, the return of a
  blocked call and PendSV is one `Action`; `IsRun` are the finite runs of these from any state that
  `rtos_start` can produce, with any number of tasks up to 256, any number of priority levels and
  any objects. Thread actions need a switch not to be pending; interrupts are always possible. A
  blocking call is two actions: the request, and the reading of its result. Beside the source's
  fields the state records unbounded history: the true tick, the true number of blocking calls,
  how often each task was granted or timed out, and what each queue accepted and delivered.
- **The code** (`Ring.dfy`, `Objects.dfy`, `Kernel.dfy`, `Board.dfy`, `System.dfy`). Classes with the
  source's fields, whose methods run the source's loops and assignments in place. The kernel's
  methods are proved to turn `View()`, the state the objects show, into exactly what the state
  machine says. `Board.dfy` has memory, registers and stacks, and `System.dfy` runs kernel and
  processor together.

`Invariant.dfy` states what every reachable state keeps; `Preservation.dfy`, `CallsPreserve.dfy`,
`MutexPreserve.dfy` and `SchedulePreserve.dfy` prove it for one step after the other. The results
over runs are in `Theorems.dfy`, `Timing.dfy`, `RoundRobin.dfy`, `WaiterOrder.dfy`, `Overtaking.dfy`,
`Holding.dfy`, `IpcLogs.dfy`, `CallItems.dfy`, `CallResults.dfy`, `Requests.dfy` and, for the context
switch, `ContextSwitch.dfy`. `SystemRuns.dfy` joins the kernel's runs with the processor's.
`Outcomes.dfy` says of every call when it succeeds, waits or is refused, and of every step what it
changes, in terms of the fields of tasks and objects alone.

## What the proofs show about the code

- Unlock compares the caller only with the waiter it wakes, and that is enough: some ready task
  outranks the caller exactly if that waiter does (`MutexPreserve.UnlockComparesEnough`). Apart
  from yielding and waiting, no call takes the processor from a task for another of equal priority
  (`Requests.RequestExact`).
- The relaxation loop of the inheritance code reaches the least fixpoint on every wait graph,
  deadlock cycles included, within as many passes as there are tasks, and its early exit is sound.
- `mutex_hold_count` is a `uint8_t`. It counts exactly if and only if no task ever owns more than 255
  mutexes, and the test for a zero count at the return of a task is right throughout a run under the
  same condition (`Holding.ReturnCheckExact`). A task that owns 256 can return without the fault for
  held mutexes and is terminated as their owner (`Holding.HoldCountCanWrap` gives the run).
- The first-come order of waiters of equal priority holds while their blocking calls are less than
  2^31 apart. From there on a newer waiter can be served first: `Overtaking.NewerOvertakes` gives a
  run in which the two calls are exactly 2^31 apart, and `WaiterOrder.DueServedExact` says for any
  number of waiters exactly when the one that is due is served.
- The overlap test of task creation reports only real overlaps, and all of them for a stack that ends
  in the address space. One that wraps around it can hide an overlap (`BoardCode.OverlapMissed`,
  with the exact condition in `BoardCode.WrappedClashExact`); such a stack cannot exist.

## Hypotheses

- A critical section is one step, and PendSV runs before the next thread-mode step once a switch is
  pending.
- The tick interrupt is one step. The source takes no critical section in `rtos_tick_isr`
  (`src/rtos_kernel.c:553-580`) although `README.md:21-22` allows kernel-aware interrupts that are
  more urgent than SysTick, so this is assumed and not proved.
- Each increment of the tick counter is followed by exactly one tick step, and the application does
  not reconfigure the tick while the kernel runs.
- In the context-switch runs, nothing writes another task's stack or the stack fields of a control
  block, and at a switch the process stack pointer lies in the running task's stack and is a
  multiple of four, as the processor keeps it. The storage of a stack that task creation accepts
  lies in the RAM, which begins at 0x20000000 (`STM32F411VETx.ld:19`), and ends below the end of the
  address space; the verdict of task creation is modelled for any arguments.

## Model

| member | source | states |
|---|---|---|
| Inheritance.InheritedAttained | src/rtos_kernel.c:487-514 | The inherited priority of a task is the base priority of some task that reaches it through mutex waits |
| Inheritance.InheritedClosed | src/rtos_kernel.c:487-514 | Inherited priorities are a fixpoint: at least the base, and no waiter outranks the owner it waits for |
| Inheritance.InheritedLeast | src/rtos_kernel.c:487-514 | They are the least such assignment |
| Inheritance.RelaxSound | src/rtos_kernel.c:494-509 | One in-place relaxation never raises a task above a base priority that reaches it |
| Inheritance.PassCoversOneMore | src/rtos_kernel.c:494-509 | One in-place pass, in any table order, covers all wait chains one longer than before |
| Inheritance.QuietPassIsExact | src/rtos_kernel.c:510-512 | If a pass changes nothing the priorities are the inherited ones, on any graph, so stopping early is sound |
| Inheritance.AllPassesExact | src/rtos_kernel.c:494-513 | After as many passes as tasks the priorities are the inherited ones, with cycles too |
| KernelCode.Kernel.RecomputePriorities | src/rtos_kernel.c:487-514 | The reset and relaxation loops leave exactly the inherited priorities and change nothing else |
| KernelState.BestWaiterIsHighest | src/rtos_kernel.c:448-467 | The scan returns a waiter if there is one, and it has the highest effective priority |
| WaiterOrder.OldestServed | src/rtos_kernel.c:433-467 | In every state of every run the waiter served is the highest and, among equals, the one that blocked first in true order, if their blocking calls are less than 2^31 apart |
| WaiterOrder.DueServedExact | src/rtos_kernel.c:433-467 | In every state of every run, for any number of waiters: the waiter that is due, the highest that blocked first in true order, is served if and only if the best waiter before it in the table is lower or lags it by 1 to 2^31 calls modulo 2^32, and every later waiter of its priority lags it by less than 2^31 |
| WaiterOrder.OlderServedExact | src/rtos_kernel.c:459-462 | With exactly two waiters, of equal priority, this is: the distance of their blocking calls modulo 2^32 is below 2^31, or 1 to 2^31 when the older comes second in the table |
| Overtaking.NewerOvertakes | src/rtos_kernel.c:433-467 | A run, from start-up, in which the newer of two equal waiters of a semaphore is served first: between their calls another task blocks and is granted until the calls are 2^31 apart |
| KernelCode.ScanWaiters | src/rtos_kernel.c:448-467 | The loop over the control blocks returns the waiter the state machine names |
| KernelCode.Kernel.SelectNext | src/rtos_kernel.c:221-241 | The nested loops return the runnable task of maximal priority that is nearest after the cursor, move that cursor to it, and return null only if nothing can run |
| KernelState.SelectedUnique | src/rtos_kernel.c:221-241 | Highest level, then nearest after the cursor, determines one task |
| Theorems.HighestRuns | src/rtos_kernel.c:543-548 | In every run, when no switch is pending, the current task is the only RUNNING one and no READY task has a higher effective priority |
| Requests.RequestExact | src/rtos_kernel.c:543-548 | Over any run, a pending switch stays pending until PendSV serves it, and a step that finds none pending requests one if and only if it is a tick, the current task blocks, delays itself, yields or ends, or after the step some READY task has a strictly higher effective priority than the current one |
| MutexPreserve.UnlockComparesEnough | src/rtos_ipc.c:175-210 | After the hand-over and the recomputation, some READY task outranks the unlocking task if and only if the one woken waiter does, though the unlock also lowers the caller; so the one comparison decides correctly |
| MutexPreserve.HandOverGraph | src/rtos_ipc.c:193-206 | Handing a mutex to its best waiter re-roots the wait graph: the caller loses exactly its waiters and the new owner gets them |
| Inheritance.HandOverPriorities | src/rtos_ipc.c:193-206 | Handing a mutex to its highest waiter changes nobody's inherited priority but the previous owner's, which can only fall, and if it falls the new owner has reached its former value |
| Theorems.PrioritiesAgree | src/rtos_kernel.c:487-514 | In every state of every run each stored effective priority is the maximum base priority over all tasks that reach the task through mutex waits, although only three places recompute it |
| Theorems.NoInversion | src/rtos_ipc.c:166-171 | When h waits through a chain of mutexes whose last owner can run and no switch is pending, the running task's priority is at least h's base priority |
| Theorems.SelectionNeverFails | src/rtos_kernel.c:597-600 | The invariant fault of the scheduler is unreachable; the idle task can always be selected |
| Theorems.TerminatedForGood | src/rtos_kernel.c:614-629 | Over any run, a task whose function has returned stays terminated and never runs again; only its effective priority may still be rewritten |
| RoundRobin.SelectionMovesCloser | src/rtos_kernel.c:221-241 | A selection that passes over a candidate of its level moves that level's cursor strictly closer to it; other levels leave it alone |
| RoundRobin.BoundedWaiting | src/rtos_kernel.c:221-241 | A task that stays runnable at level p is switched to within n selections made at level p, whatever happens at other levels |
| Words.DeadlineExact | src/rtos_kernel.c:84-86 | The wrapping deadline test agrees with unbounded time while a deadline is within 2^31 ticks |
| Words.SignedOrderExact | src/rtos_kernel.c:459-462 | The signed comparison orders two unbounded sequence numbers strictly and correctly if and only if they differ by less than 2^31 modulo 2^32 and are not congruent |
| MutexPreserve.ExpireOnTime | src/rtos_kernel.c:553-580 | The tick step ends a timed wait if and only if the true tick has reached its true deadline |
| Timing.BlockingSetsDeadline | src/rtos_kernel.c:420-442 | A call that blocks with timeout d sets the true deadline d ticks ahead, or waits forever exactly for the forever value |
| Timing.DelayIsExact | src/rtos_kernel.c:386-408 | A delay of d ticks from tick T, 1 <= d < 2^31, ends at the tick step of T + d and never earlier, across any number of wraps |
| Timing.TimeoutIsExact | src/rtos_kernel.c:563-575 | A blocked call with timeout d is granted before tick T + d or times out at the tick step of T + d |
| Timing.ForeverIsForever | src/rtos_kernel.c:567-569 | A task waiting forever is never timed out |
| IpcLogs.QueueLogLaw | src/rtos_ipc.c:236-337 | In every run, the items a queue has accepted, in order, are the items it has delivered, in order, followed by its contents; LogsAreRecorded and the CallItems rows after it tie both logs to the calls |
| IpcLogs.LogsAreRecorded | src/rtos_ipc.c:250-279 | The queue's own history is the concatenation of what each step of the run accepted and delivered, hand-offs included |
| CallItems.SendContributes | src/rtos_ipc.c:281-308 | Over any run, a send, blocked or not, puts exactly its own item into the accepted log if it returns Ok, once, at its own step or at the one step that ends its wait; with any other result it puts none, and after a wait that result is TIMEOUT from a tick. It returns Ok at once if and only if a receiver waits or there is room, and waits if and only if neither and the timeout is not 0 |
| CallItems.ReceiveContributes | src/rtos_ipc.c:310-337 | Over any run, the item a receive returns with Ok is exactly the one the delivered log got for it, once, at its own step or at the one step that ends its wait; with any other result it returns no item and the log got none. It returns Ok at once if and only if the queue is not empty, and waits if and only if it is and the timeout is not 0 |
| CallItems.AcceptedWasSent | src/rtos_ipc.c:265-279 | Whatever a step accepts from a blocked sender is the item of the send that blocked that task; a sender that times out contributes nothing |
| CallItems.DeliveredIsReturned | src/rtos_ipc.c:250-263 | Whatever a step delivers to a blocked receiver is the item which that task's next return gives back |
| IpcLogs.QueueWaiters | src/rtos_ipc.c:250-279 | Waiting receivers imply an empty queue, waiting senders a full one, and never both |
| IpcLogs.SemaphoreLaw | src/rtos_ipc.c:47-91 | Initial count plus successful gives equals successful takes plus the count, the count stays in bounds, and a positive count has no waiters |
| IpcLogs.CountsAreRecorded | src/rtos_ipc.c:47-123 | The semaphore's own counters are the gives and grants of the run's steps, hand-offs and interrupt gives included |
| CallItems.TakeContributes | src/rtos_ipc.c:47-76 | Over any run, a take counts as one grant if it returns Ok, at its own step or at the one step that ends its wait, and as none otherwise. It returns Ok at once if and only if the count is positive, and waits if and only if it is 0 and the timeout is not |
| CallItems.LockContributes | src/rtos_ipc.c:138-173 | Over any run, a lock call, blocked or not, returns Ok if and only if it made its caller the owner, and then the caller owns the mutex when it returns; unless it returns Ok at once its own step changes no owner. It returns Ok at once if and only if the mutex is free, and waits if and only if another task owns it and the timeout is not 0 |
| CallResults.ReturnTellsOutcome | src/rtos_ipc.c:163-173 | A blocked call returns Ok exactly if it was granted and TIMEOUT if it timed out, on an object that exists; for a lock Ok means ownership, and a receive that times out returns no item |
| CallResults.WaitsResolveOnce | src/rtos_kernel.c:420-482 | BLOCKED exactly when wait type and wait object are set, and every block of a task is resolved by one grant or one timeout, the current one excepted |
| CallResults.OneResolutionPerCall | src/rtos_kernel.c:472-482 | Between the step that blocks a call and the step that returns it lies exactly one grant or timeout |
| CallResults.MutexWaiters | src/rtos_ipc.c:138-210 | A free mutex has no waiters and nobody waits for a mutex it owns |
| Outcomes.TakeExact | src/rtos_ipc.c:47-76 | A take with a valid timeout answers Ok iff the count is positive, suspends iff it is 0 and the timeout is not, and answers BUSY iff both are 0; each case with everything it changes and nothing else |
| Outcomes.GiveExact | src/rtos_ipc.c:78-123 | A give, from a task or a kernel-aware interrupt, is refused iff nobody waits and the count is at its maximum; with a waiter the best one is granted and the count stays, otherwise the count rises |
| Outcomes.LockExact | src/rtos_ipc.c:138-173 | A lock with a valid timeout answers Ok iff the mutex is free, suspends iff another task owns it and the timeout is not 0, and answers BUSY otherwise with nothing changed |
| Outcomes.UnlockExact | src/rtos_ipc.c:175-210 | An unlock answers Ok iff the caller owns the mutex and NOT_OWNER otherwise with nothing changed; on Ok the best waiter, if any, is granted and owns it, and only the two hold counts and effective priorities change besides |
| Outcomes.SendExact | src/rtos_ipc.c:250-308 | A send with a valid timeout answers Ok iff a receiver waits or there is room, suspends iff neither and the timeout is not 0, and answers BUSY otherwise; the item goes to the best waiting receiver, else to the end of the queue |
| Outcomes.SendFromIsrExact | src/rtos_ipc.c:339-353 | The same from an interrupt, which never waits |
| Outcomes.ReceiveExact | src/rtos_ipc.c:265-337 | A receive with a valid timeout answers Ok with the oldest item iff there is one, suspends iff there is none and the timeout is not 0, and answers BUSY otherwise; the best waiting sender's item refills the queue |
| Outcomes.ReceiveFromIsrExact | src/rtos_ipc.c:355-369 | The same from an interrupt, which never waits |
| Outcomes.DelayExact | src/rtos_kernel.c:376-408 | A delay of 0 only requests a switch, and only from a task; one of 1 to 2^31-1 ticks from a task makes it DELAYED until the true tick now + d; anything else is INVALID with nothing changed |
| Outcomes.RefusalsExact | src/rtos_ipc.c:19-22 | For every call: INVALID iff an argument is out of range, STATE iff it is called from the wrong context, and a call that reports any error has changed nothing |
| Outcomes.TickExact | src/rtos_kernel.c:553-580 | The tick step makes READY exactly the tasks whose true deadline it is, with TIMEOUT for calls, requests a switch, and changes nothing else but effective priorities |
| Outcomes.SwitchExact | src/rtos_kernel.c:585-603 | A switch makes RUNNING the runnable task of highest effective priority that is first after its level's cursor, the previous task READY if it could go on, and moves that one cursor; a failed stack check changes nothing but the fault |
| Outcomes.ReturnExact | src/rtos_kernel.c:614-629 | A returning task faults iff its hold count is not 0, and otherwise is terminated and requests a switch |
| Outcomes.ResumeExact | src/rtos_ipc.c:73-75 | A call that comes back from its wait changes nothing but that it is over |
| Outcomes.FirstTaskExact | src/rtos_kernel.c:358-365 | The first task to run has the highest priority and is the first in the table of that priority, and is not the idle task if there is another |
| Holding.HoldCountsExact | src/rtos_ipc.c:138-210 | In a run every task's hold count is the number of mutexes it owns at every step if and only if no task ever owns more than 255 |
| Holding.ReturnCheckExact | src/rtos_kernel.c:614-626 | Over any run, a task's hold count is zero exactly when it owns nothing, in every state, if and only if no task ever owns more than 255 mutexes |
| Holding.TerminatedOwnNothing | src/rtos_kernel.c:614-626 | While nobody owned more than 255 mutexes, a terminated task owns none |
| Holding.HoldCountCanWrap | src/rtos_kernel.c:617-624 | A run in which a task locks 256 mutexes and terminates as their owner without a fault |
| SchedulePreserve.StepKeeps | src/rtos_kernel.c:553-629 | Every step of the kernel keeps the whole invariant |
| SchedulePreserve.RunKeeps | src/rtos_kernel.c:338-369 | Every state of every run satisfies it |
| KernelCode.Kernel.Step | src/rtos_kernel.c:375-629 | Executing any enabled action on the objects takes exactly the state machine's step and keeps the invariant |
| KernelCode.Kernel.BlockCurrent | src/rtos_kernel.c:420-442 | Blocks the current task with its deadline and next sequence number and requests a switch, or rejects the timeout and changes nothing |
| KernelCode.Kernel.WakeTask | src/rtos_kernel.c:472-482 | Readies one task with the given result and leaves every other object alone |
| KernelCode.Kernel.SemaphoreTake | src/rtos_ipc.c:47-76 | The new state and the reply are those of the state machine's take, error codes included |
| KernelCode.Kernel.SemaphoreGiveCommon | src/rtos_ipc.c:78-91 | Hands the token to the best waiter, or counts it, or reports the limit |
| KernelCode.Kernel.MutexLock | src/rtos_ipc.c:138-173 | The new state and the reply are those of the state machine's lock |
| KernelCode.Kernel.MutexUnlock | src/rtos_ipc.c:175-210 | The new state and the reply are those of the state machine's unlock: hand-over, recomputation, comparison |
| KernelCode.Kernel.QueueSendCommon | src/rtos_ipc.c:250-263 | Hands the item to a waiting receiver, or appends it, or reports a full queue |
| KernelCode.Kernel.QueueReceiveCommon | src/rtos_ipc.c:265-279 | Takes the oldest item and refills from the best waiting sender, or reports an empty queue |
| KernelCode.Kernel.QueueSend | src/rtos_ipc.c:281-308 | The new state and the reply are those of the state machine's send |
| KernelCode.Kernel.QueueReceive | src/rtos_ipc.c:310-337 | The new state and the reply are those of the state machine's receive |
| KernelCode.Kernel.TaskDelay | src/rtos_kernel.c:386-408 | The new state and the reply are those of the state machine's delay; zero ticks yields |
| KernelCode.Kernel.TaskReturned | src/rtos_kernel.c:614-629 | A returning task faults if its hold count is not zero and terminates otherwise |
| KernelCode.Kernel.SysTickHandler | src/stm32f411_systick.c:111-116 | Advances the wrapping counter, ends every wait that is due, recomputes if a mutex wait ended, and requests a switch |
| KernelCode.Kernel.ScheduleFromPendsv | src/rtos_kernel.c:585-603 | Preempts, selects and runs the next task, or records the fault |
| KernelCode.Kernel.StartFirst | src/rtos_kernel.c:358-365 | The first selection makes its task RUNNING and current, an initial state of the runs |
| Objects.Semaphore.Init | src/rtos_ipc.c:30-45 | Rejects a zero maximum or too large a count, then a running kernel; otherwise sets both |
| Ring.SlotInBounds | src/rtos_ipc.c:212-248 | For every accepted capacity and item size all slot offsets lie in the storage and below 2^32 |
| Ring.SizesExact | src/rtos_ipc.c:216-221 | The quotient test accepts exactly positive sizes, items of at most 64 bytes, and storages of less than 2^32 bytes |
| Ring.WriteSlot | src/rtos_ipc.c:8-17 | Writing the bytes of one slot replaces that slot and no other |
| Ring.FillAppends | src/rtos_ipc.c:236-241 | Filling the slot at the tail appends to the queued sequence |
| Ring.AdvanceDrops | src/rtos_ipc.c:243-248 | Advancing the head drops the first item |
| Ring.TailFollowsHead | src/rtos_ipc.c:236-248 | The tail is (head + count) mod capacity, and occupied slots are distinct |
| Ring.CopyBytes | src/rtos_ipc.c:8-17 | The byte loop copies exactly the given bytes to the given place |
| Ring.Queue.Init | src/rtos_ipc.c:212-234 | Rejects sizes that are zero, too large or overflow 32 bits; otherwise an empty queue |
| Ring.Queue.Push | src/rtos_ipc.c:236-241 | On bytes: appends the item to the queued sequence and touches no slot but the one at the tail |
| Ring.Queue.Pop | src/rtos_ipc.c:243-248 | On bytes: copies out the first item, removes it from the sequence, and writes no storage |
| ContextSwitch.ContextRoundTrip | startup/rtos_port.s:64-121 | Over any interleaving of task steps and switches, a task switched in again gets back R4-R11, EXC_RETURN and PSP as at its switch-out, and S16-S31 when EXC_RETURN bit 4 is clear |
| ContextSwitch.SaveExact | startup/rtos_port.s:65-82 | A save lowers the stack pointer by 24 words iff EXC_RETURN bit 4 is clear, and by 8 otherwise; it puts R4-R11 lowest and S16-S31 above them, records stack pointer and EXC_RETURN, and writes no other word |
| ContextSwitch.LoadExact | startup/rtos_port.s:99-116 | A restore takes the same 24 or 8 words from the same places, and leaves S16-S31 alone if bit 4 is set |
| ContextSwitch.SaveLoad | startup/rtos_port.s:64-113 | Restoring right after saving gives the context back, S16-S31 included when EXC_RETURN bit 4 is clear |
| ContextSwitch.SwitchKeepsOthers | startup/rtos_port.s:73-82 | A switch that does not fault leaves every other stack and control block alone |
| ContextSwitch.StackKept | startup/rtos_port.s:64-121 | A suspended task's stack and control block do not change over a run of the others |
| ContextSwitch.StackCheckExact | src/rtos_kernel.c:93-114 | The check refuses a switch if and only if the saved frame does not fit above the canary word, is not aligned to eight bytes, or the canary was already overwritten |
| ContextSwitch.StackValidExact | src/rtos_kernel.c:93-114 | For any saved pointer the check passes if and only if the canary is there, the byte address is a multiple of eight, and the pointer leaves the canary below it and no word beyond the stack |
| ContextSwitch.EveryTaskRestorable | src/rtos_kernel.c:585-603 | In a run from start-up every switch that does not fault can restore every task |
| ContextSwitch.FirstEntry | src/rtos_kernel.c:120-150 | A task that runs for the first time, however late, enters the trampoline with its own control block in R0, cleared R1-R12 and LR, and the Thumb bit set |
| ContextSwitch.FreshIsValid | src/rtos_kernel.c:93-150 | An initialised stack passes the stack check |
| BoardCode.RegisteredTask | src/rtos_kernel.c:93-215 | After any sequence of initialisations and creations every registered task, the last one included, passes the stack check and restores into the trampoline with its own control block |
| BoardCode.RegisteredApart | src/rtos_kernel.c:176-191 | Any two registered tasks have different control blocks, and no memory word lies in both their stacks |
| BoardCode.AddKeepsFresh | src/rtos_kernel.c:176-214 | Initialising a stack that clashes with no registered task keeps all of them fresh and pairwise disjoint |
| BoardCode.ClashExact | src/rtos_kernel.c:176-191 | A reported clash is the same control block or a shared byte, for any arguments; and every shared byte is reported if the new stack ends in the address space |
| BoardCode.WrappedClashExact | src/rtos_kernel.c:176-191 | A new stack that wraps around the address space and shares a byte is reported if and only if it overlaps with the registered one at both ends |
| BoardCode.OverlapMissed | src/rtos_kernel.c:176-191 | Two stacks at the same place of which the second wraps and is not reported |
| BoardCode.CreateExact | src/rtos_kernel.c:310-332 | Creation succeeds iff the kernel is initialised and not running, the priority is 1 to 7, fewer than eight application tasks exist, the stack is aligned and has at least 128 words, and nothing clashes; LIMIT is reported exactly at eight tasks |
| BoardCode.Board.InitializeStack | src/rtos_kernel.c:120-150 | The fill, canary and pushes leave the initial stack image in this stack and change no other word |
| BoardCode.Board.FindClash | src/rtos_kernel.c:176-191 | For any arguments, with the 32-bit end address the source computes: the loop reports a clash if and only if some registered task has the same control block or an overlapping stack |
| BoardCode.Board.TaskAdd | src/rtos_kernel.c:156-215 | For any arguments the verdict in the source's order of checks; a rejected task changes nothing, an accepted one, whose stack has to exist, is appended and its stack initialised |
| BoardCode.Board.Init | src/rtos_kernel.c:248-300 | Rejects a bad configuration or a running kernel; otherwise only the idle task is registered |
| BoardCode.Board.CreateStatic | src/rtos_kernel.c:310-332 | For any arguments the verdict with the state, idle-priority and limit checks first; on success one more application task |
| BoardCode.Board.SaveContext | startup/rtos_port.s:64-82 | The pushes and the two stores are the model's save |
| BoardCode.Board.LoadContext | startup/rtos_port.s:100-116 | The two loads and the pops are the model's restore |
| BoardCode.Board.StartContext | startup/rtos_port.s:31-54 | For a fresh task SVC restores the same context as PendSV would |
| BoardCode.Board.StackIsValid | src/rtos_kernel.c:93-114 | The verdict on canary, bounds and alignment |
| SystemRuns.KernelSide | src/rtos_kernel.c:585-603 | A run of kernel and processor together, each PendSV using the real stack check and the kernel's selection, is on the kernel's side a run of the state machine |
| SystemRuns.ProcessorSide | startup/rtos_port.s:64-121 | Until a stack check fails it is, on the processor's side, a run of the processor from start-up |
| SystemRuns.CurrentsAgree | src/rtos_kernel.c:585-603 | In every state of it that is not a fault, kernel and processor agree on the current task |
| SystemRuns.SwitchAlwaysPossible | startup/rtos_port.s:64-121 | Whenever a switch is pending it can be made: the stack check fails, or the task the kernel selects has a stored context and is loaded |
| SystemRuns.ResumesInContext | startup/rtos_port.s:64-121 | A task switched out gets its saved context back when the kernel next selects it, and at that moment it is RUNNING and no READY task has a higher effective priority |
| SystemCode.System.PendSVHandler | startup/rtos_port.s:64-121 | The kernel takes its PendSV step with a stack fault exactly when the saved frame does not pass, and otherwise the processor switches to the task the kernel selected; this is a step of the joint run |
| SystemCode.System.KernelStep | src/rtos_kernel.c:375-629 | The code of any other enabled action takes its step of the joint run, keeps the invariant, and leaves every task restorable |
| SystemCode.System.TaskRuns | startup/rtos_port.s:64-121 | Whatever the running task does outside the kernel's data and the others' stacks leaves the kernel's state alone and every task restorable |
| SystemCode.Start | src/rtos_kernel.c:338-369 | The verdict of rtos_start; on success kernel and processor are in a first state of the joint runs, with the processor in the task the kernel selected |

## Left out

- KernelCode.Kernel.ScheduleFromPendsv: takes the stack check's verdict as a parameter; SystemCode.System.PendSVHandler supplies the real one.
- SystemCode.Start: the result Ok stands for the first task having been entered; the source then does not return. Hook registration and reload computation of the tick driver enter as two verdicts.
- BoardCode.Board.TaskAdd: null arguments are excluded by the preconditions, and the scheduling fields of a control block are a fresh `Task` object tied to the caller's block.
- Register drivers (GPIO, NVIC, RCC, USART, SPI, I2C, DMA) and the tick driver's registers, `systick_delay` and `systick_is_timeout`: bit-field writes and polling loops on hardware whose behaviour is outside the repository.
- BASEPRI, PRIMASK, barriers, WFI, SVC and exception entry mechanics (`src/rtos_port.c`): see the hypotheses.
- Preemption inside the tick interrupt, and ticks lost to long masking: see the hypotheses.
- Lazy floating-point stacking by hardware: only the software save of S16-S31 is modelled.
- Fault recording and the endless loops after a fault: a fault ends a run.
- Magic-number and null checks of the IPC calls: callers pass initialised objects.
- Aliasing between user buffers, queue storage and kernel objects: the memory is disjoint, and a blocked sender's buffer is modelled by its content, which does not change while it waits.
- Names of tasks, the idle loop body, `rtos_tick_get`, and the plain state queries.
- The host test port, where a context switch does nothing, the demo applications, and build files.
