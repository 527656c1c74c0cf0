/** One step of the kernel for every API call, interrupt, tick and context switch. */
module KernelSpec {
  import opened Collections
  import opened Words
  import opened KernelState

  /** Where a call comes from: a task, or an interrupt that may or may not be kernel-aware. */
  datatype Context = ThreadMode | Isr(kernelAware: bool)

  /** A call either returns a status (and, for a receive, an item) or leaves its task blocked. */
  datatype Reply = Returned(status: Status, item: Item) | Suspended

  datatype Outcome = Outcome(s: State, reply: Reply)

  function Return(s: State, status: Status): Outcome {
    Outcome(s, Returned(status, []))
  }

  function BlockOn(s: State, wt: WaitType, o: nat, buffer: Item, timeout: Word): Outcome
    requires s.current < |s.tasks|
  {
    Outcome(Block(s, wt, o, buffer, timeout), Suspended)
  }

  // ----- semaphores -----

  function Take(s: State, ctx: Context, i: nat, timeout: Word): Outcome
    requires s.current < |s.tasks| && i < |s.sems|
  {
    var m := s.sems[i];
    if !TimeoutValid(timeout) then Return(s, ErrInvalid)
    else if !ctx.ThreadMode? then Return(s, ErrState)
    else if m.count != 0 then
      Return(s.(sems := s.sems[i := m.(count := m.count - 1, takes := m.takes + 1)]), Ok)
    else if timeout == 0 then Return(s, ErrBusy)
    else BlockOn(s, WaitSemaphore, i, [], timeout)
  }

  function GiveCommon(s: State, i: nat): Outcome
    requires s.current < |s.tasks| && i < |s.sems|
  {
    var m := s.sems[i];
    match FindWaiter(s, WaitSemaphore, i)
    case Some(w) =>
      var handed := s.(sems := s.sems[i := m.(gives := m.gives + 1, takes := m.takes + 1)]);
      Return(MaybePreempt(Wake(handed, w, Ok), w), Ok)
    case None =>
      if m.count >= m.maximum then Return(s, ErrBusy)
      else Return(s.(sems := s.sems[i := m.(count := m.count + 1, gives := m.gives + 1)]), Ok)
  }

  function Give(s: State, ctx: Context, i: nat): Outcome
    requires s.current < |s.tasks| && i < |s.sems|
  {
    if !ctx.ThreadMode? then Return(s, ErrState) else GiveCommon(s, i)
  }

  function GiveFromIsr(s: State, ctx: Context, i: nat): Outcome
    requires s.current < |s.tasks| && i < |s.sems|
  {
    if ctx != Isr(true) then Return(s, ErrState) else GiveCommon(s, i)
  }

  // ----- mutexes -----

  /** uint8_t increment of mutex_hold_count. */
  function Increment(h: Byte): Byte {
    if h == 255 then 0 else h + 1
  }

  function Acquire(s: State, m: nat, t: nat): State
    requires m < |s.mutexes| && t < |s.tasks|
  {
    s.(mutexes := s.mutexes[m := Some(t)],
       tasks := s.tasks[t := s.tasks[t].(holds := Increment(s.tasks[t].holds))])
  }

  ghost function Lock(s: State, ctx: Context, m: nat, timeout: Word): Outcome
    requires s.current < |s.tasks| && m < |s.mutexes|
  {
    if !TimeoutValid(timeout) then Return(s, ErrInvalid)
    else if !ctx.ThreadMode? then Return(s, ErrState)
    else if s.mutexes[m] == None then Return(Acquire(s, m, s.current), Ok)
    else if s.mutexes[m] == Some(s.current) then Return(s, ErrBusy)
    else if timeout == 0 then Return(s, ErrBusy)
    else Outcome(Recompute(Block(s, WaitMutex, m, [], timeout)), Suspended)
  }

  /** The caller gives the mutex up: its hold count drops unless it is already zero. */
  function Release(s: State): State
    requires s.current < |s.tasks|
  {
    var self := s.tasks[s.current];
    s.(tasks := s.tasks[s.current := self.(holds := if self.holds != 0 then self.holds - 1 else 0)])
  }

  ghost function Unlock(s: State, ctx: Context, m: nat): Outcome
    requires s.current < |s.tasks| && m < |s.mutexes|
  {
    if !ctx.ThreadMode? then Return(s, ErrState)
    else if s.mutexes[m] != Some(s.current) then Return(s, ErrNotOwner)
    else
      match FindWaiter(Release(s), WaitMutex, m)
      case Some(w) => Return(MaybePreempt(Recompute(Wake(Acquire(Release(s), m, w), w, Ok)), w), Ok)
      case None => Return(Recompute(Release(s).(mutexes := s.mutexes[m := None])), Ok)
  }

  // ----- queues -----

  function Push(s: State, q: nat, item: Item): State
    requires q < |s.queues|
  {
    var f := s.queues[q];
    s.(queues := s.queues[q := f.(items := f.items + [item], accepted := f.accepted + [item])])
  }

  function Pop(s: State, q: nat): State
    requires q < |s.queues| && s.queues[q].items != []
  {
    var f := s.queues[q];
    s.(queues := s.queues[q := f.(items := f.items[1..], delivered := f.delivered + [f.items[0]])])
  }

  /** An item that goes straight from a sender to the waiting receiver t. */
  function HandOffItem(s: State, q: nat, item: Item, t: nat): State
    requires q < |s.queues| && t < |s.tasks|
  {
    var f := s.queues[q];
    s.(queues := s.queues[q := f.(accepted := f.accepted + [item], delivered := f.delivered + [item])],
       tasks := s.tasks[t := s.tasks[t].(buffer := item)])
  }

  function SendCommon(s: State, q: nat, item: Item): Outcome
    requires s.current < |s.tasks| && q < |s.queues|
  {
    match FindWaiter(s, WaitQueueReceive, q)
    case Some(r) => Return(MaybePreempt(Wake(HandOffItem(s, q, item, r), r, Ok), r), Ok)
    case None =>
      if |s.queues[q].items| >= s.queues[q].capacity then Return(s, ErrBusy)
      else Return(Push(s, q, item), Ok)
  }

  function ReceiveCommon(s: State, q: nat): Outcome
    requires s.current < |s.tasks| && q < |s.queues|
  {
    if s.queues[q].items == [] then Return(s, ErrBusy)
    else
      var item := s.queues[q].items[0];
      var popped := Pop(s, q);
      match FindWaiter(popped, WaitQueueSend, q)
      case Some(w) =>
        Outcome(MaybePreempt(Wake(Push(popped, q, s.tasks[w].buffer), w, Ok), w), Returned(Ok, item))
      case None => Outcome(popped, Returned(Ok, item))
  }

  function Send(s: State, ctx: Context, q: nat, item: Item, timeout: Word): Outcome
    requires s.current < |s.tasks| && q < |s.queues|
  {
    if !TimeoutValid(timeout) then Return(s, ErrInvalid)
    else if !ctx.ThreadMode? then Return(s, ErrState)
    else
      var r := SendCommon(s, q, item);
      if r.reply == Returned(ErrBusy, []) && timeout != 0
      then BlockOn(r.s, WaitQueueSend, q, item, timeout) else r
  }

  function Receive(s: State, ctx: Context, q: nat, timeout: Word): Outcome
    requires s.current < |s.tasks| && q < |s.queues|
  {
    if !TimeoutValid(timeout) then Return(s, ErrInvalid)
    else if !ctx.ThreadMode? then Return(s, ErrState)
    else
      var r := ReceiveCommon(s, q);
      if r.reply == Returned(ErrBusy, []) && timeout != 0
      then BlockOn(r.s, WaitQueueReceive, q, [], timeout) else r
  }

  function SendFromIsr(s: State, ctx: Context, q: nat, item: Item): Outcome
    requires s.current < |s.tasks| && q < |s.queues|
  {
    if ctx != Isr(true) then Return(s, ErrState) else SendCommon(s, q, item)
  }

  function ReceiveFromIsr(s: State, ctx: Context, q: nat): Outcome
    requires s.current < |s.tasks| && q < |s.queues|
  {
    if ctx != Isr(true) then Return(s, ErrState) else ReceiveCommon(s, q)
  }

  // ----- delays, termination, the tick and the switch -----

  function Delay(s: State, ctx: Context, ticks: Word): Outcome
    requires s.current < |s.tasks|
  {
    if ticks == 0 then Return(s.(pending := s.pending || ctx.ThreadMode?), Ok)
    else if !ctx.ThreadMode? || !TimeoutValid(ticks) || ticks == WAIT_FOREVER then Return(s, ErrInvalid)
    else
      var k := s.tasks[s.current];
      Return(s.(tasks := s.tasks[s.current :=
                  k.(wakeTick := Wrap32(s.ticks + ticks), waitForever := false, state := Delayed,
                     past := k.past.(deadline := s.now + ticks))],
                pending := true), Ok)
  }

  /** The end of rtos_task_entry_trampoline. */
  function Terminate(s: State): State
    requires s.current < |s.tasks|
  {
    var k := s.tasks[s.current];
    if k.holds != 0 then s.(fault := FaultTaskReturnWithMutex)
    else s.(tasks := s.tasks[s.current := k.(state := Terminated)], pending := true)
  }

  /** Does the tick `ticks` end a timed wait of this task? */
  predicate TimesOut(k: Tcb, ticks: Word) {
    k.state == Blocked && !k.waitForever && DeadlineReached(ticks, k.wakeTick)
  }

  function ExpireTcb(k: Tcb, ticks: Word): Tcb {
    if k.state == Delayed && DeadlineReached(ticks, k.wakeTick) then k.(state := Ready)
    else if TimesOut(k, ticks) then WakeTcb(k, ErrTimeout)
    else k
  }

  predicate MutexTimesOut(s: State) {
    exists t :: 0 <= t < |s.tasks| && TimesOut(s.tasks[t], s.ticks) && s.tasks[t].waitType == WaitMutex
  }

  function Expire(s: State): (r: State)
    ensures |r.tasks| == |s.tasks| && r == s.(tasks := r.tasks)
    ensures forall t :: 0 <= t < |s.tasks| ==> r.tasks[t] == ExpireTcb(s.tasks[t], s.ticks)
  {
    s.(tasks := seq(|s.tasks|, t requires 0 <= t < |s.tasks| => ExpireTcb(s.tasks[t], s.ticks)))
  }

  function Advance(s: State): State {
    s.(ticks := Wrap32(s.ticks + 1), now := s.now + 1)
  }

  /** SysTick_Handler followed by rtos_tick_isr. */
  ghost function Tick(s: State): State {
    var ticked := Advance(s);
    var expired := Expire(ticked);
    (if MutexTimesOut(ticked) then Recompute(expired) else expired).(pending := true)
  }

  /** A running task competes for the processor again. */
  function Preempted(s: State): State
    requires s.current < |s.tasks|
  {
    var k := s.tasks[s.current];
    s.(tasks := s.tasks[s.current := if k.state == Running then k.(state := Ready) else k])
  }

  /** The selected task runs; the switch request has been served. */
  function Dispatch(s: State, i: nat): State
    requires i < |s.tasks| && s.tasks[i].eff < |s.cursor|
  {
    s.(cursor := s.cursor[s.tasks[i].eff := i], tasks := s.tasks[i := s.tasks[i].(state := Running)], current := i,
       pending := false)
  }

  /** rtos_schedule_from_pendsv; `stackValid` is the verdict of rtos_task_stack_valid. */
  ghost function Schedule(s: State, stackValid: bool): State
    requires WellFormed(s)
  {
    var p := Preempted(s);
    if !stackValid then s.(fault := FaultStack)
    else if AnyRunnable(p) then Dispatch(p, Selected(p))
    else p.(fault := FaultKernelInvariant)
  }

  /** The blocked call of the current task reads its result and returns. */
  function Resume(s: State): Outcome
    requires s.current < |s.tasks|
  {
    var k := s.tasks[s.current];
    var receiving := k.past.call.Some? && k.past.call.value.waitType == WaitQueueReceive;
    Outcome(s.(tasks := s.tasks[s.current := k.(past := k.past.(call := None))]),
            Returned(k.waitResult, if receiving then k.buffer else []))
  }

  // ----- the transition system -----

  datatype Api =
    | TakeCall(sem: nat, timeout: Word)
    | GiveCall(sem: nat)
    | GiveFromIsrCall(sem: nat)
    | LockCall(mutex: nat, timeout: Word)
    | UnlockCall(mutex: nat)
    | SendCall(queue: nat, item: Item, timeout: Word)
    | ReceiveCall(queue: nat, timeout: Word)
    | SendFromIsrCall(queue: nat, item: Item)
    | ReceiveFromIsrCall(queue: nat)
    | DelayCall(ticks: Word)

  datatype Action =
    | Invoke(ctx: Context, api: Api)
    | ReturnFromWait
    | TaskReturns
    | TickInterrupt
    | PendSV(stackValid: bool)

  /** The object exists and an item has the size of the queue's slots. */
  ghost predicate ArgumentsExist(s: State, api: Api) {
    match api
    case TakeCall(i, _) => i < |s.sems|
    case GiveCall(i) => i < |s.sems|
    case GiveFromIsrCall(i) => i < |s.sems|
    case LockCall(m, _) => m < |s.mutexes|
    case UnlockCall(m) => m < |s.mutexes|
    case SendCall(q, item, _) => q < |s.queues| && |item| == s.queues[q].itemSize
    case ReceiveCall(q, _) => q < |s.queues|
    case SendFromIsrCall(q, item) => q < |s.queues| && |item| == s.queues[q].itemSize
    case ReceiveFromIsrCall(q) => q < |s.queues|
    case DelayCall(_) => true
  }

  ghost function Perform(s: State, ctx: Context, api: Api): Outcome
    requires s.current < |s.tasks| && ArgumentsExist(s, api)
  {
    match api
    case TakeCall(i, timeout) => Take(s, ctx, i, timeout)
    case GiveCall(i) => Give(s, ctx, i)
    case GiveFromIsrCall(i) => GiveFromIsr(s, ctx, i)
    case LockCall(m, timeout) => Lock(s, ctx, m, timeout)
    case UnlockCall(m) => Unlock(s, ctx, m)
    case SendCall(q, item, timeout) => Send(s, ctx, q, item, timeout)
    case ReceiveCall(q, timeout) => Receive(s, ctx, q, timeout)
    case SendFromIsrCall(q, item) => SendFromIsr(s, ctx, q, item)
    case ReceiveFromIsrCall(q) => ReceiveFromIsr(s, ctx, q)
    case DelayCall(ticks) => Delay(s, ctx, ticks)
  }

  /** Thread code runs only while no switch is pending, and a task that has blocked finishes that
      call first. Task 0 is the idle task, which calls nothing and never returns. */
  ghost predicate ThreadMayCall(s: State)
    requires s.current < |s.tasks|
  {
    !s.pending && s.current != 0 && s.tasks[s.current].past.call.None?
  }

  ghost predicate Enabled(s: State, a: Action) {
    && WellFormed(s) && s.fault == FaultNone
    && match a
       case Invoke(ctx, api) => ArgumentsExist(s, api) && (ctx.ThreadMode? ==> ThreadMayCall(s))
       case ReturnFromWait => !s.pending && s.tasks[s.current].past.call.Some?
       case TaskReturns => ThreadMayCall(s)
       case TickInterrupt => true
       case PendSV(_) => s.pending
  }

  ghost function Apply(s: State, a: Action): State
    requires Enabled(s, a)
  {
    match a
    case Invoke(ctx, api) => Perform(s, ctx, api).s
    case ReturnFromWait => Resume(s).s
    case TaskReturns => Terminate(s)
    case TickInterrupt => Tick(s)
    case PendSV(ok) => Schedule(s, ok)
  }

  // ----- starting -----

  /** After rtos_init, any task creations and object initialisations, before rtos_start. */
  ghost predicate Booted(s: State) {
    && WellFormed(s) && s.current == 0
    && (forall t :: 0 <= t < |s.tasks| ==> FreshTcb(s.tasks[t]))
    && s.tasks[0].base == 0 && (forall t :: 1 <= t < |s.tasks| ==> s.tasks[t].base > 0)
    && (forall p :: 0 <= p < |s.cursor| ==> s.cursor[p] == 0)
    && (forall i :: 0 <= i < |s.sems| ==>
          var m := s.sems[i];
          0 < m.maximum && m.count == m.initial <= m.maximum && m.gives == m.takes == 0)
    && (forall m :: 0 <= m < |s.mutexes| ==> s.mutexes[m] == None)
    && (forall q :: 0 <= q < |s.queues| ==>
          var f := s.queues[q];
          0 < f.capacity && f.items == f.accepted == f.delivered == [])
    && s.waitSequence == 0 && s.ticks == 0 && s.now == 0 && s.blockCount == 0
    && !s.pending && s.fault == FaultNone
  }

  /** rtos_start up to the first task's first instruction. */
  ghost function Start(s: State): State
    requires Booted(s)
  {
    assert Runnable(s.tasks[0]);
    Dispatch(s, Selected(s))
  }

  ghost predicate Initial(s: State) {
    exists b :: Booted(b) && s == Start(b)
  }

  /** A run: `states[k + 1]` comes from `states[k]` by `actions[k]`. */
  ghost predicate IsRun(states: seq<State>, actions: seq<Action>) {
    && |states| == |actions| + 1
    && Initial(states[0])
    && forall k :: 0 <= k < |actions| ==>
         Enabled(states[k], actions[k]) && states[k + 1] == Apply(states[k], actions[k])
  }
}
