/** When a context switch is requested: exactly when one is needed. */
module Requests {
  import opened Collections
  import opened KernelState
  import opened KernelSpec
  import opened Invariant
  import MutexPreserve
  import SchedulePreserve

  /** Some READY task has a higher effective priority than the current one. */
  ghost predicate Outranked(s: State)
    requires s.current < |s.tasks|
  {
    exists t :: 0 <= t < |s.tasks| && s.tasks[t].state == Ready && s.tasks[t].eff > s.tasks[s.current].eff
  }

  /** Steps after which the scheduler looks again whatever the priorities are: a tick, and those in
      which the current task blocks, delays itself, yields or ends. */
  ghost predicate GivesUp(s: State, a: Action)
    requires Enabled(s, a)
  {
    match a
    case TickInterrupt => true
    case TaskReturns => s.tasks[s.current].holds == 0
    case Invoke(ctx, DelayCall(d)) => ctx == ThreadMode && d <= 0x7FFF_FFFF
    case Invoke(ctx, api) => Perform(s, ctx, api).reply.Suspended?
    case _ => false
  }

  /** From s, a call has requested a switch only for a task that outranks the current one. */
  ghost predicate RequestsForHigher(s: State, s': State) {
    && s'.current == s.current < |s'.tasks|
    && (s'.pending && !s.pending ==> Outranked(s'))
  }

  lemma WakeRequests(s: State, woken: State, w: nat)
    requires woken.current < |woken.tasks| && w < |woken.tasks| && woken.tasks[w].state == Ready
    requires woken.current == s.current && woken.pending == s.pending
    ensures RequestsForHigher(s, MaybePreempt(woken, w))
  {
    assert MaybePreempt(woken, w).tasks[w].state == Ready;
  }

  lemma GiveRequests(s: State, i: nat)
    requires s.current < |s.tasks| && i < |s.sems|
    ensures RequestsForHigher(s, GiveCommon(s, i).s) && GiveCommon(s, i).reply.Returned?
  {
    var m := s.sems[i];
    match FindWaiter(s, WaitSemaphore, i)
    case Some(w) =>
      var handed := s.(sems := s.sems[i := m.(gives := m.gives + 1, takes := m.takes + 1)]);
      WakeRequests(s, Wake(handed, w, Ok), w);
    case None =>
  }

  lemma UnlockRequests(s: State, m: nat)
    requires RunInv(s) && s.current < |s.tasks| && ThreadMayCall(s)
    requires m < |s.mutexes| && s.mutexes[m] == Some(s.current)
    ensures RequestsForHigher(s, Unlock(s, ThreadMode, m).s)
  {
    MutexPreserve.UnlockCases(s, m);
    match FindWaiter(Release(s), WaitMutex, m)
    case Some(w) =>
      var r := Recompute(MutexPreserve.HandedOver(s, m, w));
      assert r.tasks[w].state == Ready;
      WakeRequests(s, r, w);
    case None =>
  }

  lemma SendRequests(s: State, q: nat, item: Item)
    requires s.current < |s.tasks| && q < |s.queues|
    ensures RequestsForHigher(s, SendCommon(s, q, item).s) && SendCommon(s, q, item).reply.Returned?
  {
    match FindWaiter(s, WaitQueueReceive, q)
    case Some(w) => WakeRequests(s, Wake(HandOffItem(s, q, item, w), w, Ok), w);
    case None =>
  }

  lemma ReceiveRequests(s: State, q: nat)
    requires s.current < |s.tasks| && q < |s.queues|
    ensures RequestsForHigher(s, ReceiveCommon(s, q).s) && ReceiveCommon(s, q).reply.Returned?
  {
    if s.queues[q].items != [] {
      var popped := Pop(s, q);
      match FindWaiter(popped, WaitQueueSend, q)
      case Some(w) => WakeRequests(s, Wake(Push(popped, q, s.tasks[w].buffer), w, Ok), w);
      case None =>
    }
  }

  lemma InvokeRequests(s: State, ctx: Context, api: Api)
    requires RunInv(s) && Enabled(s, Invoke(ctx, api))
    ensures var s' := Perform(s, ctx, api).s;
      if GivesUp(s, Invoke(ctx, api)) then s'.pending else RequestsForHigher(s, s')
  {
    hide FindWaiter, GiveCommon, SendCommon, ReceiveCommon, Outranked;
    match api
    case TakeCall(i, timeout) =>
    case GiveCall(i) => GiveRequests(s, i);
    case GiveFromIsrCall(i) => GiveRequests(s, i);
    case LockCall(m, timeout) =>
    case UnlockCall(m) =>
      if ctx.ThreadMode? && s.mutexes[m] == Some(s.current) {
        UnlockRequests(s, m);
      }
    case SendCall(q, item, timeout) => SendRequests(s, q, item);
    case ReceiveCall(q, timeout) => ReceiveRequests(s, q);
    case SendFromIsrCall(q, item) => SendRequests(s, q, item);
    case ReceiveFromIsrCall(q) => ReceiveRequests(s, q);
    case DelayCall(d) =>
  }

  /** A request stands until PendSV serves it. */
  lemma RequestStands(s: State, a: Action)
    requires RunInv(s) && Enabled(s, a) && s.pending
    ensures Apply(s, a).pending <==> a != PendSV(true)
  {
    match a
    case PendSV(ok) => SchedulePreserve.PreemptedKeepsWellFormed(s);
    case _ =>
  }

  /** Over any run: a pending switch stays pending until PendSV serves it; and a step that finds
      none pending leaves one pending exactly if the current task gives the processor up, a tick
      comes, or after the step some READY task has a higher effective priority than the current
      one. So a call that neither yields nor waits takes the processor from no task for another of
      equal priority. */
  lemma RequestExact(states: seq<State>, actions: seq<Action>, k: nat)
    requires IsRun(states, actions) && k < |actions|
    ensures |states| == |actions| + 1 && Enabled(states[k], actions[k])
    ensures var s, a, s' := states[k], actions[k], states[k + 1];
      && s'.current < |s'.tasks|
      && (s.pending ==> (s'.pending <==> a != PendSV(true)))
      && (!s.pending ==> (s'.pending <==> GivesUp(s, a) || Outranked(s')))
  {
    SchedulePreserve.RunKeeps(states, actions, k);
    SchedulePreserve.RunKeeps(states, actions, k + 1);
    StepRequests(states[k], actions[k]);
  }

  lemma StepRequests(s: State, a: Action)
    requires Inv(s) && Enabled(s, a) && Inv(Apply(s, a))
    ensures var s' := Apply(s, a);
      && s'.current < |s'.tasks|
      && (s.pending ==> (s'.pending <==> a != PendSV(true)))
      && (!s.pending ==> (s'.pending <==> GivesUp(s, a) || Outranked(s')))
  {
    if s.pending {
      RequestStands(s, a);
    } else {
      match a
      case Invoke(ctx, api) => InvokeRequests(s, ctx, api);
      case _ =>
    }
  }
}
