/** What one step can do to a waiting task and to the round-robin cursors. */
module Frames {
  import opened Collections
  import opened Words
  import opened KernelState
  import opened KernelSpec
  import opened Invariant
  import opened SchedulePreserve
  import CallsPreserve
  import MutexPreserve

  ghost predicate SameUpToEff(k: Tcb, k': Tcb) {
    k' == k.(eff := k'.eff)
  }

  /** The wait of k was granted. */
  ghost predicate GrantedTo(k: Tcb, k': Tcb) {
    && k.state == Blocked && k'.state == Ready && k'.waitResult == Ok
    && k'.past == k.past.(grants := k.past.grants + 1, granted := true)
  }

  /** The wait of k timed out. */
  ghost predicate TimedOut(k: Tcb, k': Tcb) {
    && k.state == Blocked && k'.state == Ready && k'.waitResult == ErrTimeout
    && k'.past == k.past.(timeouts := k.past.timeouts + 1, granted := false)
  }

  predicate Waiting(k: Tcb) {
    k.state == Delayed || k.state == Blocked
  }

  /** Waiting, ended, or back from a wait whose call has not returned yet. */
  predicate Engaged(k: Tcb) {
    Waiting(k) || k.state == Terminated || k.past.call.Some?
  }

  /** From s to s', an engaged task stays as it is or is granted what it waits for. */
  ghost predicate WaitersFramed(s: State, s': State) {
    && |s'.tasks| == |s.tasks| && s'.cursor == s.cursor && s'.now == s.now
    && forall t :: 0 <= t < |s.tasks| && Engaged(s.tasks[t]) ==>
         SameUpToEff(s.tasks[t], s'.tasks[t]) || GrantedTo(s.tasks[t], s'.tasks[t])
  }

  lemma TakeFrames(s: State, ctx: Context, i: nat, timeout: Word)
    requires RunInv(s) && i < |s.sems| && (ctx.ThreadMode? ==> ThreadMayCall(s))
    ensures WaitersFramed(s, Take(s, ctx, i, timeout).s)
  {
  }

  lemma GiveFrames(s: State, i: nat)
    requires s.current < |s.tasks| && i < |s.sems|
    ensures WaitersFramed(s, GiveCommon(s, i).s)
  {
  }

  lemma LockFrames(s: State, ctx: Context, m: nat, timeout: Word)
    requires RunInv(s) && m < |s.mutexes| && (ctx.ThreadMode? ==> ThreadMayCall(s))
    ensures WaitersFramed(s, Lock(s, ctx, m, timeout).s)
  {
  }

  lemma UnlockFrames(s: State, ctx: Context, m: nat)
    requires RunInv(s) && m < |s.mutexes| && (ctx.ThreadMode? ==> ThreadMayCall(s))
    ensures WaitersFramed(s, Unlock(s, ctx, m).s)
  {
    if ctx.ThreadMode? && s.mutexes[m] == Some(s.current) {
      MutexPreserve.UnlockCases(s, m);
      match FindWaiter(Release(s), WaitMutex, m)
      case Some(w) => HandOverFrames(s, m, w);
      case None => FreeFrames(s, m);
    }
  }

  lemma HandOverFrames(s: State, m: nat, w: nat)
    requires MutexPreserve.MayHandOver(s, m, w)
    ensures WaitersFramed(s, MaybePreempt(Recompute(MutexPreserve.HandedOver(s, m, w)), w))
  {
  }

  lemma FreeFrames(s: State, m: nat)
    requires MutexPreserve.MayFree(s, m)
    ensures WaitersFramed(s, Recompute(MutexPreserve.Freed(s, m)))
  {
  }

  lemma BlockFrames(s: State, wt: WaitType, o: nat, buffer: Item, timeout: Word)
    requires RunInv(s) && ThreadMayCall(s)
    ensures WaitersFramed(s, Block(s, wt, o, buffer, timeout))
  {
  }

  lemma SendCommonFrames(s: State, q: nat, item: Item)
    requires s.current < |s.tasks| && q < |s.queues|
    ensures WaitersFramed(s, SendCommon(s, q, item).s)
    ensures SendCommon(s, q, item).reply == Returned(ErrBusy, []) ==> SendCommon(s, q, item).s == s
  {
  }

  lemma SendFrames(s: State, ctx: Context, q: nat, item: Item, timeout: Word)
    requires RunInv(s) && q < |s.queues| && (ctx.ThreadMode? ==> ThreadMayCall(s))
    ensures WaitersFramed(s, Send(s, ctx, q, item, timeout).s)
  {
    SendCommonFrames(s, q, item);
    if ctx.ThreadMode? {
      BlockFrames(s, WaitQueueSend, q, item, timeout);
    }
  }

  lemma ReceiveCommonFrames(s: State, q: nat)
    requires s.current < |s.tasks| && q < |s.queues|
    ensures WaitersFramed(s, ReceiveCommon(s, q).s)
    ensures ReceiveCommon(s, q).reply == Returned(ErrBusy, []) ==> ReceiveCommon(s, q).s == s
  {
    CallsPreserve.ReceiveCases(s, q);
  }

  lemma ReceiveFrames(s: State, ctx: Context, q: nat, timeout: Word)
    requires RunInv(s) && q < |s.queues| && (ctx.ThreadMode? ==> ThreadMayCall(s))
    ensures WaitersFramed(s, Receive(s, ctx, q, timeout).s)
  {
    ReceiveCommonFrames(s, q);
    if ctx.ThreadMode? {
      BlockFrames(s, WaitQueueReceive, q, [], timeout);
    }
  }

  lemma PerformFrames(s: State, ctx: Context, api: Api)
    requires RunInv(s) && ArgumentsExist(s, api) && (ctx.ThreadMode? ==> ThreadMayCall(s))
    ensures WaitersFramed(s, Perform(s, ctx, api).s)
  {
    match api
    case TakeCall(i, timeout) => TakeFrames(s, ctx, i, timeout);
    case GiveCall(i) => GiveFrames(s, i);
    case GiveFromIsrCall(i) => GiveFrames(s, i);
    case LockCall(m, timeout) => LockFrames(s, ctx, m, timeout);
    case UnlockCall(m) => UnlockFrames(s, ctx, m);
    case SendCall(q, item, timeout) => SendFrames(s, ctx, q, item, timeout);
    case ReceiveCall(q, timeout) => ReceiveFrames(s, ctx, q, timeout);
    case SendFromIsrCall(q, item) => SendCommonFrames(s, q, item);
    case ReceiveFromIsrCall(q) => ReceiveCommonFrames(s, q);
    case DelayCall(ticks) =>
  }

  /** A task that has ended is left alone by every step. */
  lemma TerminatedStep(s: State, a: Action, t: nat)
    requires RunInv(s) && Enabled(s, a) && t < |s.tasks| && s.tasks[t].state == Terminated
    ensures t < |Apply(s, a).tasks| && SameUpToEff(s.tasks[t], Apply(s, a).tasks[t])
  {
    match a
    case Invoke(ctx, api) => PerformFrames(s, ctx, api);
    case ReturnFromWait =>
    case TaskReturns =>
    case TickInterrupt => TickedTcb(s, t);
    case PendSV(ok) => PreemptedKeepsWellFormed(s);
  }

  /** Every step but a tick leaves each waiting task as it is or grants its wait. */
  lemma StepFrames(s: State, a: Action)
    requires RunInv(s) && Enabled(s, a) && !a.TickInterrupt?
    ensures var s' := Apply(s, a);
      && |s'.tasks| == |s.tasks| && s'.now == s.now
      && forall t :: 0 <= t < |s.tasks| && Waiting(s.tasks[t]) ==>
           SameUpToEff(s.tasks[t], s'.tasks[t]) || GrantedTo(s.tasks[t], s'.tasks[t])
  {
    match a
    case Invoke(ctx, api) => PerformFrames(s, ctx, api);
    case ReturnFromWait =>
    case TaskReturns =>
    case PendSV(ok) => SwitchFrames(s, ok);
  }

  lemma SwitchFrames(s: State, ok: bool)
    requires RunInv(s)
    ensures |Schedule(s, ok).tasks| == |s.tasks| && Schedule(s, ok).now == s.now
    ensures forall t :: 0 <= t < |s.tasks| && Waiting(s.tasks[t]) ==> Schedule(s, ok).tasks[t] == s.tasks[t]
  {
    PreemptedKeepsWellFormed(s);
  }

  lemma TickedTcb(s: State, t: nat)
    requires t < |s.tasks|
    ensures |Tick(s).tasks| == |s.tasks|
    ensures SameUpToEff(ExpireTcb(s.tasks[t], Wrap32(s.ticks + 1)), Tick(s).tasks[t])
  {
  }

  /** A tick ends exactly the waits whose true deadline it reaches, and leaves the others alone. */
  lemma TickFrames(s: State, t: nat)
    requires TimeInv(s) && t < |s.tasks| && Waiting(s.tasks[t])
    ensures var k, k' := s.tasks[t], Tick(s).tasks[t];
      && |Tick(s).tasks| == |s.tasks| && Tick(s).now == s.now + 1
      && if Timed(k) && k.past.deadline == s.now + 1
         then if k.state == Delayed then k'.state == Ready else TimedOut(k, k')
         else SameUpToEff(k, k')
  {
    var k := s.tasks[t];
    assert TimeOk(k, s.now);
    WrapSum(s.now, 1);
    MutexPreserve.ExpireOnTime(k, s.now);
    TickedTcb(s, t);
  }

  /** Only a completed context switch moves a cursor, and only the one of the level it selects at. */
  lemma CursorFrames(s: State, a: Action)
    requires RunInv(s) && Enabled(s, a) && a != PendSV(true)
    ensures Apply(s, a).cursor == s.cursor && |Apply(s, a).tasks| == |s.tasks|
  {
    match a
    case Invoke(ctx, api) => PerformFrames(s, ctx, api);
    case ReturnFromWait =>
    case TaskReturns =>
    case TickInterrupt => MutexPreserve.TickShape(s);
    case PendSV(ok) =>
  }

  /** A task does not start another blocking call before the last one has returned. */
  lemma EngagedStartsNothing(s: State, a: Action, t: nat)
    requires RunInv(s) && Enabled(s, a) && t < |s.tasks| && s.tasks[t].past.call.Some?
    ensures t < |Apply(s, a).tasks| && Apply(s, a).tasks[t].past.blocks == s.tasks[t].past.blocks
  {
    match a
    case Invoke(ctx, api) => PerformFrames(s, ctx, api);
    case ReturnFromWait =>
    case TaskReturns =>
    case TickInterrupt => TickedTcb(s, t);
    case PendSV(ok) => PreemptedKeepsWellFormed(s);
  }

  lemma RunBasics(states: seq<State>, actions: seq<Action>, k: nat)
    requires IsRun(states, actions) && k < |states|
    ensures RunInv(states[k]) && TimeInv(states[k])
  {
    RunKeeps(states, actions, k);
  }

  lemma RunLength(states: seq<State>, actions: seq<Action>)
    requires IsRun(states, actions)
    ensures |states| == |actions| + 1
  {
  }

  lemma RunStarts(states: seq<State>, actions: seq<Action>)
    requires IsRun(states, actions)
    ensures Initial(states[0])
  {
  }

  lemma RunStep(states: seq<State>, actions: seq<Action>, k: nat)
    requires IsRun(states, actions) && k < |actions|
    ensures RunInv(states[k]) && TimeInv(states[k])
    ensures Enabled(states[k], actions[k]) && states[k + 1] == Apply(states[k], actions[k])
  {
    RunKeeps(states, actions, k);
  }
}
