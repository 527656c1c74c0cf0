/** What every call answers and what every step changes, in terms of the fields of the control
    blocks and objects alone. */
module Outcomes {
  import opened Collections
  import opened Words
  import opened KernelState
  import opened KernelSpec
  import opened Invariant
  import MutexPreserve
  import SchedulePreserve

  // ----- what a step may do to a control block -----

  predicate TimeoutInRange(timeout: Word) {
    timeout == 0xFFFF_FFFF || timeout <= 0x7FFF_FFFF
  }

  ghost predicate SomebodyWaits(s: State, wt: WaitType, o: nat) {
    exists t :: 0 <= t < |s.tasks| && Waits(s, t, wt, o)
  }

  /** A control block whose wait has just ended with `result`. */
  function Ends(k: Tcb, result: Status): Tcb {
    k.(state := Ready, waitType := WaitNone, waitObject := None, waitForever := false, waitResult := result)
  }

  function Granted(k: Tcb): Tcb {
    Ends(k, Ok).(past := k.past.(grants := k.past.grants + 1, granted := true))
  }

  function OneMoreHeld(k: Tcb): Tcb {
    k.(holds := ((k.holds as int + 1) % 256) as Byte)
  }

  function OneLessHeld(k: Tcb): Tcb {
    k.(holds := if k.holds == 0 then 0 else k.holds - 1)
  }

  /** The caller is blocked for o; nothing else changed but effective priorities, the sequence
      number and the switch request. */
  ghost predicate SuspendedOn(s: State, s': State, wt: WaitType, o: nat, buffer: Item)
    requires s.current < |s.tasks|
  {
    && |s'.tasks| == |s.tasks|
    && s' == s.(tasks := s'.tasks, waitSequence := s'.waitSequence, blockCount := s.blockCount + 1, pending := true)
    && (forall t :: 0 <= t < |s.tasks| && t != s.current ==> s'.tasks[t] == s.tasks[t].(eff := s'.tasks[t].eff))
    && (wt != WaitMutex ==> forall t :: 0 <= t < |s.tasks| ==> s'.tasks[t].eff == s.tasks[t].eff)
    && var k, k' := s.tasks[s.current], s'.tasks[s.current];
    && k'.state == Blocked && k'.waitType == wt && k'.waitObject == Some(o) && k'.buffer == buffer
    && k'.base == k.base && k'.holds == k.holds
  }

  // ----- semaphores -----

  lemma TakeExact(s: State, i: nat, timeout: Word)
    requires Enabled(s, Invoke(ThreadMode, TakeCall(i, timeout))) && TimeoutInRange(timeout)
    ensures var r, m := Perform(s, ThreadMode, TakeCall(i, timeout)), s.sems[i];
      && (r.reply == Returned(Ok, []) <==> m.count > 0)
      && (r.reply == Suspended <==> m.count == 0 && timeout != 0)
      && (r.reply == Returned(ErrBusy, []) <==> m.count == 0 && timeout == 0)
      && (m.count > 0 ==> r.s == s.(sems := s.sems[i := m.(count := m.count - 1, takes := m.takes + 1)]))
      && (r.reply == Suspended ==> SuspendedOn(s, r.s, WaitSemaphore, i, []))
      && (r.reply == Returned(ErrBusy, []) ==> r.s == s)
  {
  }

  /** From a task, and from a kernel-aware interrupt. */
  predicate GivesTo(ctx: Context, api: Api, i: nat) {
    (ctx == ThreadMode && api == GiveCall(i)) || (ctx == Isr(true) && api == GiveFromIsrCall(i))
  }

  lemma GiveExact(s: State, ctx: Context, api: Api, i: nat)
    requires GivesTo(ctx, api, i) && Enabled(s, Invoke(ctx, api))
    ensures var r, m, w := Perform(s, ctx, api), s.sems[i], FindWaiter(s, WaitSemaphore, i);
      && r.reply == Returned(r.reply.status, []) && (r.reply.status == Ok || r.reply.status == ErrBusy)
      && (r.reply.status == Ok <==> SomebodyWaits(s, WaitSemaphore, i) || m.count < m.maximum)
      && (r.reply.status != Ok ==> r.s == s)
      && (r.reply.status == Ok && w == None ==>
            r.s == s.(sems := s.sems[i := m.(count := m.count + 1, gives := m.gives + 1)]))
      && (w.Some? ==>
            r.s == s.(sems := s.sems[i := m.(gives := m.gives + 1, takes := m.takes + 1)],
                      tasks := s.tasks[w.value := Granted(s.tasks[w.value])], pending := r.s.pending))
  {
  }

  // ----- mutexes -----

  lemma LockExact(s: State, m: nat, timeout: Word)
    requires Enabled(s, Invoke(ThreadMode, LockCall(m, timeout))) && TimeoutInRange(timeout)
    ensures var r, owner := Perform(s, ThreadMode, LockCall(m, timeout)), s.mutexes[m];
      && (r.reply == Returned(Ok, []) <==> owner == None)
      && (r.reply == Suspended <==> owner.Some? && owner.value != s.current && timeout != 0)
      && (r.reply == Returned(ErrBusy, []) <==> owner == Some(s.current) || (owner.Some? && timeout == 0))
      && (owner == None ==>
            r.s == s.(mutexes := s.mutexes[m := Some(s.current)],
                      tasks := s.tasks[s.current := OneMoreHeld(s.tasks[s.current])]))
      && (r.reply == Suspended ==> SuspendedOn(s, r.s, WaitMutex, m, []))
      && (r.reply == Returned(ErrBusy, []) ==> r.s == s)
  {
  }

  /** What an unlock by the owner does to a control block, effective priority aside; w is the task
      that gets the mutex. */
  function Unlocked(s: State, w: Option<nat>, t: nat): Tcb
    requires t < |s.tasks|
  {
    if w == Some(t) then OneMoreHeld(Granted(s.tasks[t]))
    else if t == s.current then OneLessHeld(s.tasks[t])
    else s.tasks[t]
  }

  lemma HandOverExact(s: State, m: nat, w: nat)
    requires MutexPreserve.MayHandOver(s, m, w)
    ensures var s' := MaybePreempt(Recompute(MutexPreserve.HandedOver(s, m, w)), w);
      && |s'.tasks| == |s.tasks|
      && s' == s.(mutexes := s.mutexes[m := Some(w)], tasks := s'.tasks, pending := s'.pending)
      && forall t :: 0 <= t < |s.tasks| ==> s'.tasks[t] == Unlocked(s, Some(w), t).(eff := s'.tasks[t].eff)
  {
    assert w != s.current;
    var h := MutexPreserve.HandedOver(s, m, w);
    forall t | 0 <= t < |s.tasks| ensures h.tasks[t] == Unlocked(s, Some(w), t) {
    }
  }

  lemma FreeExact(s: State, m: nat)
    requires MutexPreserve.MayFree(s, m)
    ensures var s' := Recompute(MutexPreserve.Freed(s, m));
      && |s'.tasks| == |s.tasks|
      && s' == s.(mutexes := s.mutexes[m := None], tasks := s'.tasks)
      && forall t :: 0 <= t < |s.tasks| ==> s'.tasks[t] == Unlocked(s, None, t).(eff := s'.tasks[t].eff)
  {
  }

  lemma UnlockReply(s: State, m: nat)
    requires s.current < |s.tasks| && m < |s.mutexes|
    ensures var r := Unlock(s, ThreadMode, m);
      r.reply == Returned(if s.mutexes[m] == Some(s.current) then Ok else ErrNotOwner, [])
      && (s.mutexes[m] != Some(s.current) ==> r.s == s)
  {
  }

  lemma ReleaseKeepsWaiter(s: State, m: nat)
    requires s.current < |s.tasks|
    ensures FindWaiter(Release(s), WaitMutex, m) == FindWaiter(s, WaitMutex, m)
  {
    SameWaiter(s, Release(s), WaitMutex, m, |s.tasks|);
  }

  lemma UnlockServes(s: State, m: nat)
    requires RunInv(s) && s.current < |s.tasks| && ThreadMayCall(s)
    requires m < |s.mutexes| && s.mutexes[m] == Some(s.current)
    ensures var s', w := Unlock(s, ThreadMode, m).s, FindWaiter(s, WaitMutex, m);
      && |s'.tasks| == |s.tasks|
      && s' == s.(mutexes := s.mutexes[m := w], tasks := s'.tasks, pending := s'.pending)
      && forall t :: 0 <= t < |s.tasks| ==> s'.tasks[t] == Unlocked(s, w, t).(eff := s'.tasks[t].eff)
  {
    hide *;
    MutexPreserve.UnlockCases(s, m);
    ReleaseKeepsWaiter(s, m);
    match FindWaiter(s, WaitMutex, m)
    case Some(w) => HandOverExact(s, m, w);
    case None => FreeExact(s, m);
  }

  lemma UnlockExact(s: State, m: nat)
    requires Inv(s) && Enabled(s, Invoke(ThreadMode, UnlockCall(m)))
    ensures var r, w := Perform(s, ThreadMode, UnlockCall(m)), FindWaiter(s, WaitMutex, m);
      && (r.reply == Returned(Ok, []) <==> s.mutexes[m] == Some(s.current))
      && (r.reply == Returned(ErrNotOwner, []) <==> s.mutexes[m] != Some(s.current))
      && (s.mutexes[m] != Some(s.current) ==> r.s == s)
      && (s.mutexes[m] == Some(s.current) ==>
            && |r.s.tasks| == |s.tasks|
            && r.s == s.(mutexes := s.mutexes[m := w], tasks := r.s.tasks, pending := r.s.pending)
            && forall t :: 0 <= t < |s.tasks| ==> r.s.tasks[t] == Unlocked(s, w, t).(eff := r.s.tasks[t].eff))
  {
    hide Unlock, FindWaiter, Unlocked;
    UnlockReply(s, m);
    if s.mutexes[m] == Some(s.current) {
      UnlockServes(s, m);
    }
  }

  /** The choice of a waiter looks at the waits, the effective priorities and the sequence numbers. */
  lemma {:induction false} SameWaiter(s: State, s': State, wt: WaitType, o: nat, k: nat)
    requires |s'.tasks| == |s.tasks| && k <= |s.tasks|
    requires forall t :: 0 <= t < |s.tasks| ==>
      && Waits(s', t, wt, o) == Waits(s, t, wt, o)
      && s'.tasks[t].eff == s.tasks[t].eff && s'.tasks[t].waitSequence == s.tasks[t].waitSequence
    ensures BestWaiter(s', wt, o, k) == BestWaiter(s, wt, o, k)
  {
    if k > 0 {
      SameWaiter(s, s', wt, o, k - 1);
    }
  }

  // ----- queues -----

  ghost predicate MaySend(s: State, q: nat)
    requires q < |s.queues|
  {
    SomebodyWaits(s, WaitQueueReceive, q) || |s.queues[q].items| < s.queues[q].capacity
  }

  /** The best waiting receiver gets the item, and if there is none the queue. */
  ghost predicate Sent(s: State, s': State, q: nat, item: Item)
    requires q < |s.queues|
  {
    var f, w := s.queues[q], FindWaiter(s, WaitQueueReceive, q);
    if w.Some? then
      s' == s.(queues := s.queues[q := f.(accepted := f.accepted + [item], delivered := f.delivered + [item])],
               tasks := s.tasks[w.value := Granted(s.tasks[w.value]).(buffer := item)], pending := s'.pending)
    else
      s' == s.(queues := s.queues[q := f.(items := f.items + [item], accepted := f.accepted + [item])])
  }

  lemma SendExact(s: State, q: nat, item: Item, timeout: Word)
    requires Enabled(s, Invoke(ThreadMode, SendCall(q, item, timeout))) && TimeoutInRange(timeout)
    ensures var r := Perform(s, ThreadMode, SendCall(q, item, timeout));
      && (r.reply == Returned(Ok, []) <==> MaySend(s, q))
      && (r.reply == Suspended <==> !MaySend(s, q) && timeout != 0)
      && (r.reply == Returned(ErrBusy, []) <==> !MaySend(s, q) && timeout == 0)
      && (r.reply == Returned(Ok, []) ==> Sent(s, r.s, q, item))
      && (r.reply == Suspended ==> SuspendedOn(s, r.s, WaitQueueSend, q, item))
      && (r.reply == Returned(ErrBusy, []) ==> r.s == s)
  {
    SendCommonExact(s, q, item);
  }

  lemma SendFromIsrExact(s: State, q: nat, item: Item)
    requires Enabled(s, Invoke(Isr(true), SendFromIsrCall(q, item)))
    ensures var r := Perform(s, Isr(true), SendFromIsrCall(q, item));
      && (r.reply == Returned(Ok, []) <==> MaySend(s, q))
      && (r.reply == Returned(ErrBusy, []) <==> !MaySend(s, q))
      && (if MaySend(s, q) then Sent(s, r.s, q, item) else r.s == s)
  {
    SendCommonExact(s, q, item);
  }

  lemma SendCommonExact(s: State, q: nat, item: Item)
    requires s.current < |s.tasks| && q < |s.queues|
    ensures var r := SendCommon(s, q, item);
      && r.reply == Returned(if MaySend(s, q) then Ok else ErrBusy, [])
      && (if MaySend(s, q) then Sent(s, r.s, q, item) else r.s == s)
  {
  }

  /** The oldest item leaves, and the item of the best waiting sender takes the freed place. */
  ghost predicate Received(s: State, s': State, q: nat, item: Item)
    requires q < |s.queues| && s.queues[q].items != []
  {
    var f, w := s.queues[q], FindWaiter(s, WaitQueueSend, q);
    && item == f.items[0]
    && if w.Some? then
         var refill := s.tasks[w.value].buffer;
         s' == s.(queues := s.queues[q := f.(items := f.items[1..] + [refill], accepted := f.accepted + [refill],
                                             delivered := f.delivered + [item])],
                  tasks := s.tasks[w.value := Granted(s.tasks[w.value])], pending := s'.pending)
       else
         s' == s.(queues := s.queues[q := f.(items := f.items[1..], delivered := f.delivered + [item])])
  }

  lemma ReceiveExact(s: State, q: nat, timeout: Word)
    requires Enabled(s, Invoke(ThreadMode, ReceiveCall(q, timeout))) && TimeoutInRange(timeout)
    ensures var r, items := Perform(s, ThreadMode, ReceiveCall(q, timeout)), s.queues[q].items;
      && (r.reply.Returned? && r.reply.status == Ok <==> items != [])
      && (r.reply == Suspended <==> items == [] && timeout != 0)
      && (r.reply == Returned(ErrBusy, []) <==> items == [] && timeout == 0)
      && (items != [] ==> Received(s, r.s, q, r.reply.item))
      && (r.reply == Suspended ==> SuspendedOn(s, r.s, WaitQueueReceive, q, []))
      && (r.reply == Returned(ErrBusy, []) ==> r.s == s)
  {
    ReceiveCommonExact(s, q);
  }

  lemma ReceiveFromIsrExact(s: State, q: nat)
    requires Enabled(s, Invoke(Isr(true), ReceiveFromIsrCall(q)))
    ensures var r, items := Perform(s, Isr(true), ReceiveFromIsrCall(q)), s.queues[q].items;
      && (r.reply.Returned? && r.reply.status == Ok <==> items != [])
      && (r.reply == Returned(ErrBusy, []) <==> items == [])
      && (if items != [] then Received(s, r.s, q, r.reply.item) else r.s == s)
  {
    ReceiveCommonExact(s, q);
  }

  lemma ReceiveCommonExact(s: State, q: nat)
    requires s.current < |s.tasks| && q < |s.queues|
    ensures var r, items := ReceiveCommon(s, q), s.queues[q].items;
      if items == [] then r == Outcome(s, Returned(ErrBusy, []))
      else r.reply == Returned(Ok, items[0]) && Received(s, r.s, q, items[0])
  {
    if s.queues[q].items != [] {
      SameWaiter(s, Pop(s, q), WaitQueueSend, q, |s.tasks|);
    }
  }

  // ----- delays -----

  lemma DelayExact(s: State, ctx: Context, d: Word)
    requires Enabled(s, Invoke(ctx, DelayCall(d)))
    ensures var r, k := Perform(s, ctx, DelayCall(d)), s.tasks[s.current];
      && (r.reply == Returned(Ok, []) <==> d == 0 || (ctx == ThreadMode && d <= 0x7FFF_FFFF))
      && (r.reply != Returned(Ok, []) ==> r == Outcome(s, Returned(ErrInvalid, [])))
      && (d == 0 ==> r.s == s.(pending := s.pending || ctx == ThreadMode))
      && (d != 0 && r.reply == Returned(Ok, []) ==>
            && |r.s.tasks| == |s.tasks| && r.s == s.(tasks := r.s.tasks, pending := true)
            && (forall t :: 0 <= t < |s.tasks| && t != s.current ==> r.s.tasks[t] == s.tasks[t])
            && var k' := r.s.tasks[s.current];
               k' == k.(state := Delayed, waitForever := false, wakeTick := k'.wakeTick,
                        past := k.past.(deadline := s.now + d)))
  {
  }

  // ----- calls that are turned away -----

  /** What the checks of the arguments let through. */
  predicate ArgumentsFit(ctx: Context, api: Api) {
    match api
    case TakeCall(_, timeout) => TimeoutInRange(timeout)
    case LockCall(_, timeout) => TimeoutInRange(timeout)
    case SendCall(_, _, timeout) => TimeoutInRange(timeout)
    case ReceiveCall(_, timeout) => TimeoutInRange(timeout)
    case DelayCall(d) => d == 0 || (ctx == ThreadMode && d <= 0x7FFF_FFFF)
    case _ => true
  }

  /** Thread calls need a task, calls for interrupts an interrupt the kernel can mask. */
  predicate ContextFits(ctx: Context, api: Api) {
    match api
    case GiveFromIsrCall(_) => ctx == Isr(true)
    case SendFromIsrCall(_, _) => ctx == Isr(true)
    case ReceiveFromIsrCall(_) => ctx == Isr(true)
    case DelayCall(_) => true
    case _ => ctx == ThreadMode
  }

  /** Which calls are turned away and how, and that a call that reports an error changed nothing. */
  lemma RefusalsExact(s: State, ctx: Context, api: Api)
    requires Enabled(s, Invoke(ctx, api))
    ensures var r := Perform(s, ctx, api);
      && (r.reply == Returned(ErrInvalid, []) <==> !ArgumentsFit(ctx, api))
      && (r.reply == Returned(ErrState, []) <==> ArgumentsFit(ctx, api) && !ContextFits(ctx, api))
      && (r.reply.Returned? && r.reply.status != Ok ==> r.s == s && r.reply.item == [])
  {
    hide FindWaiter;
    match api
    case SendCall(q, item, _) => SendCommonExact(s, q, item);
    case SendFromIsrCall(q, item) => SendCommonExact(s, q, item);
    case ReceiveCall(q, _) => ReceiveCommonExact(s, q);
    case ReceiveFromIsrCall(q) => ReceiveCommonExact(s, q);
    case _ =>
  }

  // ----- the other steps -----

  /** The true deadline of a timed wait is the tick that is about to be counted. */
  predicate DueNow(s: State, t: nat)
    requires t < |s.tasks|
  {
    var k := s.tasks[t];
    (k.state == Delayed || (k.state == Blocked && !k.waitForever)) && k.past.deadline == s.now + 1
  }

  /** What the tick does to a control block, effective priority aside. */
  function Ticked(s: State, t: nat): Tcb
    requires t < |s.tasks|
  {
    var k := s.tasks[t];
    if !DueNow(s, t) then k
    else if k.state == Delayed then k.(state := Ready)
    else Ends(k, ErrTimeout).(past := k.past.(timeouts := k.past.timeouts + 1, granted := false))
  }

  lemma TickExact(s: State)
    requires TimeInv(s) && Enabled(s, TickInterrupt)
    ensures var s' := Apply(s, TickInterrupt);
      && |s'.tasks| == |s.tasks|
      && s' == s.(tasks := s'.tasks, now := s.now + 1, ticks := (s.ticks + 1) % 0x1_0000_0000, pending := true)
      && forall t :: 0 <= t < |s.tasks| ==> s'.tasks[t] == Ticked(s, t).(eff := s'.tasks[t].eff)
  {
    TickShape(s);
    hide Tick, Ticked, WellFormed;
    forall t | 0 <= t < |s.tasks| ensures Tick(s).tasks[t] == Ticked(s, t).(eff := Tick(s).tasks[t].eff) {
      TcbTicks(s, t);
    }
  }

  lemma TickShape(s: State)
    ensures var s' := Tick(s);
      && |s'.tasks| == |s.tasks|
      && s' == s.(tasks := s'.tasks, now := s.now + 1, ticks := (s.ticks + 1) % 0x1_0000_0000, pending := true)
      && forall t :: 0 <= t < |s.tasks| ==>
           s'.tasks[t] == ExpireTcb(s.tasks[t], Wrap32(s.ticks + 1)).(eff := s'.tasks[t].eff)
  {
  }

  lemma TcbTicks(s: State, t: nat)
    requires t < |s.tasks| && TimeInv(s)
    ensures ExpireTcb(s.tasks[t], Wrap32(s.ticks + 1)) == Ticked(s, t)
  {
    var k := s.tasks[t];
    WrapSum(s.now, 1);
    assert TimeOk(k, s.now);
    if Timed(k) {
      DeadlineExact(s.now + 1, k.past.deadline);
    }
  }

  /** PendSV takes the runnable task of highest effective priority that comes first after the
      cursor of its level, the previous task included; or it faults and moves nothing. */
  lemma SwitchExact(s: State, ok: bool)
    requires RunInv(s) && Enabled(s, PendSV(ok))
    ensures var s' := Apply(s, PendSV(ok));
      if !ok then s' == s.(fault := FaultStack)
      else
        var i := s'.current;
        && IsSelected(s, i) && |s'.tasks| == |s.tasks|
        && s' == s.(tasks := s'.tasks, current := i, cursor := s.cursor[s.tasks[i].eff := i], pending := false)
        && forall t :: 0 <= t < |s.tasks| ==>
             var k := s.tasks[t];
             s'.tasks[t] == k.(state := if t == i then Running else if k.state == Running then Ready else k.state)
  {
    if ok {
      SchedulePreserve.PreemptedKeepsWellFormed(s);
      SelectionIgnoresRunning(s, Schedule(s, ok).current);
    }
  }

  lemma SelectionIgnoresRunning(s: State, i: nat)
    requires WellFormed(s) && WellFormed(Preempted(s)) && IsSelected(Preempted(s), i)
    ensures IsSelected(s, i)
  {
    var p := Preempted(s);
    assert forall t :: 0 <= t < |s.tasks| ==>
      Runnable(p.tasks[t]) == Runnable(s.tasks[t]) && p.tasks[t].eff == s.tasks[t].eff;
  }

  /** A task function that returns ends its task, or faults if its hold count is not zero. */
  lemma ReturnExact(s: State)
    requires Enabled(s, TaskReturns)
    ensures var s', k := Apply(s, TaskReturns), s.tasks[s.current];
      if k.holds != 0 then s' == s.(fault := FaultTaskReturnWithMutex)
      else s' == s.(tasks := s.tasks[s.current := k.(state := Terminated)], pending := true)
  {
  }

  /** A call that comes back from its wait reads its result and changes nothing. */
  lemma ResumeExact(s: State)
    requires Enabled(s, ReturnFromWait)
    ensures var s', k := Apply(s, ReturnFromWait), s.tasks[s.current];
      s' == s.(tasks := s.tasks[s.current := k.(past := k.past.(call := None))])
  {
  }

  /** The first task is one of highest priority, and of those the first in the table; the idle task
      only if there is no other. */
  lemma FirstTaskExact(s: State)
    requires Initial(s)
    ensures s.current < |s.tasks| && s.tasks[s.current].state == Running && !s.pending
    ensures forall t :: 0 <= t < |s.tasks| ==> s.tasks[t].eff == s.tasks[t].base <= s.tasks[s.current].base
    ensures forall t :: 0 < t < s.current ==> s.tasks[t].base < s.tasks[s.current].base
    ensures forall t :: 0 <= t < |s.tasks| && t != s.current ==> s.tasks[t].state == Ready
    ensures |s.tasks| > 1 ==> s.current != 0
  {
    var b :| Booted(b) && s == Start(b);
    assert Runnable(b.tasks[0]);
    FirstSelection(b, Selected(b));
  }

  lemma FirstSelection(b: State, i: nat)
    requires Booted(b) && IsSelected(b, i)
    ensures i < |b.tasks|
    ensures forall t :: 0 <= t < |b.tasks| ==>
      b.tasks[t].state == Ready && b.tasks[t].eff == b.tasks[t].base <= b.tasks[i].base
    ensures forall t :: 0 < t < i ==> b.tasks[t].base < b.tasks[i].base
    ensures |b.tasks| > 1 ==> i != 0
  {
    forall t | 0 <= t < |b.tasks|
      ensures b.tasks[t].state == Ready && b.tasks[t].eff == b.tasks[t].base <= b.tasks[i].base
    {
      assert FreshTcb(b.tasks[t]) && Runnable(b.tasks[t]);
    }
    forall t | 0 < t < i ensures b.tasks[t].base < b.tasks[i].base {
      assert FreshTcb(b.tasks[t]) && Runnable(b.tasks[t]);
    }
    if |b.tasks| > 1 {
      assert b.tasks[1].base > 0;
    }
  }
}
