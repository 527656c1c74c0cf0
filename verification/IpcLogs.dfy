/** Conservation laws of semaphores and queues, counted from what the calls of a run report. */
module IpcLogs {
  import opened Words
  import opened KernelState
  import opened KernelSpec
  import opened Invariant
  import opened SchedulePreserve
  import CallsPreserve
  import MutexPreserve

  /** Task w waited for o in s and no longer does in s'. */
  predicate Released(s: State, s': State, wt: WaitType, o: nat, w: nat) {
    w < |s.tasks| && w < |s'.tasks| && Waits(s, w, wt, o) && s'.tasks[w].state != Blocked
  }

  predicate AnyReleased(s: State, s': State, wt: WaitType, o: nat) {
    exists w :: 0 <= w < |s.tasks| && Released(s, s', wt, o, w)
  }

  predicate Succeeds(r: Outcome) {
    r.reply.Returned? && r.reply.status == Ok
  }

  // ----- queues -----

  /** The items queue q accepts in a step: the item of a send that returns Ok, and the item of a
      blocked sender that a receive lets go. */
  ghost function AcceptedBy(s: State, a: Action, q: nat): seq<Item>
    requires Enabled(s, a)
  {
    match a
    case Invoke(ctx, SendCall(p, item, _)) => if p == q && Succeeds(Perform(s, ctx, a.api)) then [item] else []
    case Invoke(ctx, SendFromIsrCall(p, item)) => if p == q && Succeeds(Perform(s, ctx, a.api)) then [item] else []
    case Invoke(ctx, ReceiveCall(p, _)) => if p == q then ReleasedItem(s, Perform(s, ctx, a.api), q) else []
    case Invoke(ctx, ReceiveFromIsrCall(p)) => if p == q then ReleasedItem(s, Perform(s, ctx, a.api), q) else []
    case _ => []
  }

  ghost function ReleasedItem(s: State, r: Outcome, q: nat): seq<Item> {
    if Succeeds(r) && AnyReleased(s, r.s, WaitQueueSend, q) then
      var w :| 0 <= w < |s.tasks| && Released(s, r.s, WaitQueueSend, q, w);
      [s.tasks[w].buffer]
    else []
  }

  /** The items queue q delivers in a step: what a receive returns with Ok, and what is found in
      the buffer of a blocked receiver that a send lets go. */
  ghost function DeliveredBy(s: State, a: Action, q: nat): seq<Item>
    requires Enabled(s, a)
  {
    match a
    case Invoke(ctx, ReceiveCall(p, _)) => if p == q then ReturnedItem(Perform(s, ctx, a.api)) else []
    case Invoke(ctx, ReceiveFromIsrCall(p)) => if p == q then ReturnedItem(Perform(s, ctx, a.api)) else []
    case Invoke(ctx, SendCall(p, _, _)) => if p == q then HandedItem(s, Perform(s, ctx, a.api), q) else []
    case Invoke(ctx, SendFromIsrCall(p, _)) => if p == q then HandedItem(s, Perform(s, ctx, a.api), q) else []
    case _ => []
  }

  ghost function ReturnedItem(r: Outcome): seq<Item> {
    if Succeeds(r) then [r.reply.item] else []
  }

  ghost function HandedItem(s: State, r: Outcome, q: nat): seq<Item> {
    if Succeeds(r) && AnyReleased(s, r.s, WaitQueueReceive, q) then
      var w :| 0 <= w < |s.tasks| && Released(s, r.s, WaitQueueReceive, q, w);
      [r.s.tasks[w].buffer]
    else []
  }

  ghost predicate LogsGrow(s: State, s': State, q: nat, accepted: seq<Item>, delivered: seq<Item>)
    requires q < |s.queues|
  {
    && q < |s'.queues|
    && s'.queues[q].accepted == s.queues[q].accepted + accepted
    && s'.queues[q].delivered == s.queues[q].delivered + delivered
  }

  lemma SendLogs(s: State, q: nat, item: Item)
    requires s.current < |s.tasks| && q < |s.queues|
    ensures var r := SendCommon(s, q, item);
      && (Succeeds(r) ==> LogsGrow(s, r.s, q, [item], HandedItem(s, r, q)))
      && (!Succeeds(r) ==> r == Return(s, ErrBusy))
      && forall p :: 0 <= p < |s.queues| && p != q ==> LogsGrow(s, r.s, p, [], [])
  {
    var found := FindWaiter(s, WaitQueueReceive, q);
    if found.Some? {
      var s' := SendCommon(s, q, item).s;
      assert Released(s, s', WaitQueueReceive, q, found.value);
      assert forall w :: 0 <= w < |s.tasks| && Released(s, s', WaitQueueReceive, q, w) ==> w == found.value;
    }
  }

  lemma ReceiveLogs(s: State, q: nat)
    requires s.current < |s.tasks| && q < |s.queues|
    ensures var r := ReceiveCommon(s, q);
      && (Succeeds(r) ==> LogsGrow(s, r.s, q, ReleasedItem(s, r, q), [r.reply.item]))
      && (!Succeeds(r) ==> r == Return(s, ErrBusy))
      && forall p :: 0 <= p < |s.queues| && p != q ==> LogsGrow(s, r.s, p, [], [])
  {
    CallsPreserve.ReceiveCases(s, q);
    if s.queues[q].items != [] {
      var s' := ReceiveCommon(s, q).s;
      var found := FindWaiter(Pop(s, q), WaitQueueSend, q);
      if found.Some? {
        assert Released(s, s', WaitQueueSend, q, found.value);
        assert forall w :: 0 <= w < |s.tasks| && Released(s, s', WaitQueueSend, q, w) ==> w == found.value;
      } else {
        assert !AnyReleased(s, s', WaitQueueSend, q);
      }
    }
  }

  lemma SendStepLogs(s: State, ctx: Context, p: nat, item: Item, timeout: Word, q: nat)
    requires Enabled(s, Invoke(ctx, SendCall(p, item, timeout))) && q < |s.queues|
    ensures var a := Invoke(ctx, SendCall(p, item, timeout));
      LogsGrow(s, Apply(s, a), q, AcceptedBy(s, a, q), DeliveredBy(s, a, q))
  {
    SendLogs(s, p, item);
  }

  lemma ReceiveStepLogs(s: State, ctx: Context, p: nat, timeout: Word, q: nat)
    requires Enabled(s, Invoke(ctx, ReceiveCall(p, timeout))) && q < |s.queues|
    ensures var a := Invoke(ctx, ReceiveCall(p, timeout));
      LogsGrow(s, Apply(s, a), q, AcceptedBy(s, a, q), DeliveredBy(s, a, q))
  {
    ReceiveLogs(s, p);
  }

  lemma SendFromIsrLogs(s: State, ctx: Context, p: nat, item: Item, q: nat)
    requires Enabled(s, Invoke(ctx, SendFromIsrCall(p, item))) && q < |s.queues|
    ensures var a := Invoke(ctx, SendFromIsrCall(p, item));
      LogsGrow(s, Apply(s, a), q, AcceptedBy(s, a, q), DeliveredBy(s, a, q))
  {
    SendLogs(s, p, item);
  }

  lemma ReceiveFromIsrLogs(s: State, ctx: Context, p: nat, q: nat)
    requires Enabled(s, Invoke(ctx, ReceiveFromIsrCall(p))) && q < |s.queues|
    ensures var a := Invoke(ctx, ReceiveFromIsrCall(p));
      LogsGrow(s, Apply(s, a), q, AcceptedBy(s, a, q), DeliveredBy(s, a, q))
  {
    ReceiveLogs(s, p);
  }

  lemma IsrStepLogs(s: State, a: Action, q: nat)
    requires Enabled(s, a) && a.Invoke? && (a.api.SendFromIsrCall? || a.api.ReceiveFromIsrCall?) && q < |s.queues|
    ensures LogsGrow(s, Apply(s, a), q, AcceptedBy(s, a, q), DeliveredBy(s, a, q))
  {
    match a.api
    case SendFromIsrCall(p, item) => SendFromIsrLogs(s, a.ctx, p, item, q);
    case ReceiveFromIsrCall(p) => ReceiveFromIsrLogs(s, a.ctx, p, q);
    case _ =>
  }

  predicate TouchesQueues(a: Action) {
    a.Invoke? && (a.api.SendCall? || a.api.ReceiveCall? || a.api.SendFromIsrCall? || a.api.ReceiveFromIsrCall?)
  }

  lemma OtherStepLogs(s: State, a: Action)
    requires RunInv(s) && Enabled(s, a) && !TouchesQueues(a)
    ensures Apply(s, a).queues == s.queues
  {
    if a == TickInterrupt {
      MutexPreserve.TickShape(s);
    } else if a.PendSV? {
      PreemptedKeepsWellFormed(s);
    }
  }

  /** The logs kept in the state grow by exactly the items a step accepts and delivers. */
  lemma StepLogs(s: State, a: Action, q: nat)
    requires RunInv(s) && Enabled(s, a) && q < |s.queues|
    ensures LogsGrow(s, Apply(s, a), q, AcceptedBy(s, a, q), DeliveredBy(s, a, q))
  {
    if TouchesQueues(a) {
      match a.api
      case SendCall(p, item, timeout) => SendStepLogs(s, a.ctx, p, item, timeout, q);
      case ReceiveCall(p, timeout) => ReceiveStepLogs(s, a.ctx, p, timeout, q);
      case _ => IsrStepLogs(s, a, q);
    } else {
      OtherStepLogs(s, a);
    }
  }

  /** All items queue q has accepted in the first k steps, in order. */
  ghost function Accepted(states: seq<State>, actions: seq<Action>, k: nat, q: nat): seq<Item>
    requires IsRun(states, actions) && k <= |actions|
  {
    if k == 0 then [] else Accepted(states, actions, k - 1, q) + AcceptedBy(states[k - 1], actions[k - 1], q)
  }

  /** All items queue q has delivered in the first k steps, in order. */
  ghost function Delivered(states: seq<State>, actions: seq<Action>, k: nat, q: nat): seq<Item>
    requires IsRun(states, actions) && k <= |actions|
  {
    if k == 0 then [] else Delivered(states, actions, k - 1, q) + DeliveredBy(states[k - 1], actions[k - 1], q)
  }

  lemma {:induction false} LogsAreRecorded(states: seq<State>, actions: seq<Action>, k: nat, q: nat)
    requires IsRun(states, actions) && k < |states| && q < |states[0].queues|
    ensures q < |states[k].queues|
    ensures states[k].queues[q].accepted == Accepted(states, actions, k, q)
    ensures states[k].queues[q].delivered == Delivered(states, actions, k, q)
  {
    if k == 0 {
      var b :| Booted(b) && states[0] == Start(b);
      assert Runnable(b.tasks[0]);
    } else {
      LogsAreRecorded(states, actions, k - 1, q);
      RunRunInv(states, actions, k - 1);
      hide RunInv, AcceptedBy, DeliveredBy;
      StepLogs(states[k - 1], actions[k - 1], q);
    }
  }

  lemma RunRunInv(states: seq<State>, actions: seq<Action>, k: nat)
    requires IsRun(states, actions) && k < |states|
    ensures RunInv(states[k])
  {
    RunKeeps(states, actions, k);
  }

  /** First in, first out over any run, with blocked senders, blocked receivers, direct hand-off,
      interrupts and timeouts: the items accepted so far, in order, are the items delivered so
      far, in order, followed by the content of the buffer. */
  lemma QueueLogLaw(states: seq<State>, actions: seq<Action>, k: nat, q: nat)
    requires IsRun(states, actions) && k < |states| && q < |states[0].queues|
    ensures q < |states[k].queues|
    ensures Accepted(states, actions, k, q) == Delivered(states, actions, k, q) + states[k].queues[q].items
    ensures |states[k].queues[q].items| <= states[k].queues[q].capacity
  {
    LogsAreRecorded(states, actions, k, q);
    RunKeeps(states, actions, k);
    assert FifoOk(states[k].queues[q]);
  }

  /** Receivers wait only at an empty queue, senders only at a full one, and never both. */
  lemma QueueWaiters(states: seq<State>, actions: seq<Action>, k: nat, q: nat)
    requires IsRun(states, actions) && k < |states| && q < |states[k].queues|
    ensures var s, f := states[k], states[k].queues[q];
      && (f.items != [] ==> NobodyWaits(s, WaitQueueReceive, q))
      && (|f.items| < f.capacity ==> NobodyWaits(s, WaitQueueSend, q))
      && (NobodyWaits(s, WaitQueueReceive, q) || NobodyWaits(s, WaitQueueSend, q))
  {
    RunKeeps(states, actions, k);
    assert FifoOk(states[k].queues[q]);
  }

  // ----- semaphores -----

  /** Gives of semaphore i that a step reports as successful. */
  ghost function GivesBy(s: State, a: Action, i: nat): nat
    requires Enabled(s, a)
  {
    match a
    case Invoke(ctx, GiveCall(j)) => if j == i && Succeeds(Perform(s, ctx, a.api)) then 1 else 0
    case Invoke(ctx, GiveFromIsrCall(j)) => if j == i && Succeeds(Perform(s, ctx, a.api)) then 1 else 0
    case _ => 0
  }

  /** Takes of semaphore i that a step grants: at once, or to a blocked task that a give lets go. */
  ghost function TakesBy(s: State, a: Action, i: nat): nat
    requires Enabled(s, a)
  {
    match a
    case Invoke(ctx, TakeCall(j, _)) => if j == i && Succeeds(Perform(s, ctx, a.api)) then 1 else 0
    case Invoke(ctx, GiveCall(j)) =>
      if j == i && AnyReleased(s, Perform(s, ctx, a.api).s, WaitSemaphore, i) then 1 else 0
    case Invoke(ctx, GiveFromIsrCall(j)) =>
      if j == i && AnyReleased(s, Perform(s, ctx, a.api).s, WaitSemaphore, i) then 1 else 0
    case _ => 0
  }

  ghost predicate CountsGrow(s: State, s': State, i: nat, gives: nat, takes: nat)
    requires i < |s.sems|
  {
    && i < |s'.sems| && s'.sems[i].initial == s.sems[i].initial && s'.sems[i].maximum == s.sems[i].maximum
    && s'.sems[i].gives == s.sems[i].gives + gives && s'.sems[i].takes == s.sems[i].takes + takes
  }

  lemma GiveCounts(s: State, j: nat)
    requires s.current < |s.tasks| && j < |s.sems|
    ensures var r := GiveCommon(s, j);
      && CountsGrow(s, r.s, j, if Succeeds(r) then 1 else 0, if AnyReleased(s, r.s, WaitSemaphore, j) then 1 else 0)
      && forall i :: 0 <= i < |s.sems| && i != j ==> CountsGrow(s, r.s, i, 0, 0)
  {
    var found := FindWaiter(s, WaitSemaphore, j);
    var s' := GiveCommon(s, j).s;
    if found.Some? {
      assert Released(s, s', WaitSemaphore, j, found.value);
    } else {
      assert !AnyReleased(s, s', WaitSemaphore, j);
    }
  }

  predicate TouchesSemaphores(a: Action) {
    a.Invoke? && (a.api.TakeCall? || a.api.GiveCall? || a.api.GiveFromIsrCall?)
  }

  lemma OtherStepCounts(s: State, a: Action)
    requires RunInv(s) && Enabled(s, a) && !TouchesSemaphores(a)
    ensures Apply(s, a).sems == s.sems
  {
    if a == TickInterrupt {
      MutexPreserve.TickShape(s);
    } else if a.PendSV? {
      PreemptedKeepsWellFormed(s);
    }
  }

  lemma SemaphoreStepCounts(s: State, a: Action, i: nat)
    requires Enabled(s, a) && i < |s.sems| && TouchesSemaphores(a)
    ensures CountsGrow(s, Apply(s, a), i, GivesBy(s, a, i), TakesBy(s, a, i))
  {
    match a.api
    case GiveCall(j) =>
      GiveCounts(s, j);
      assert a.ctx != ThreadMode ==> !AnyReleased(s, Perform(s, a.ctx, a.api).s, WaitSemaphore, j);
    case GiveFromIsrCall(j) =>
      GiveCounts(s, j);
      assert a.ctx != Isr(true) ==> !AnyReleased(s, Perform(s, a.ctx, a.api).s, WaitSemaphore, j);
    case _ =>
  }

  ghost function Gives(states: seq<State>, actions: seq<Action>, k: nat, i: nat): nat
    requires IsRun(states, actions) && k <= |actions|
  {
    if k == 0 then 0 else Gives(states, actions, k - 1, i) + GivesBy(states[k - 1], actions[k - 1], i)
  }

  ghost function Takes(states: seq<State>, actions: seq<Action>, k: nat, i: nat): nat
    requires IsRun(states, actions) && k <= |actions|
  {
    if k == 0 then 0 else Takes(states, actions, k - 1, i) + TakesBy(states[k - 1], actions[k - 1], i)
  }

  lemma {:induction false} CountsAreRecorded(states: seq<State>, actions: seq<Action>, k: nat, i: nat)
    requires IsRun(states, actions) && k < |states| && i < |states[0].sems|
    ensures i < |states[k].sems|
    ensures states[k].sems[i].initial == states[0].sems[i].count
    ensures states[k].sems[i].gives == Gives(states, actions, k, i)
    ensures states[k].sems[i].takes == Takes(states, actions, k, i)
  {
    if k == 0 {
      var b :| Booted(b) && states[0] == Start(b);
      assert Runnable(b.tasks[0]);
    } else {
      CountsAreRecorded(states, actions, k - 1, i);
      RunRunInv(states, actions, k - 1);
      hide RunInv, GivesBy, TakesBy;
      if TouchesSemaphores(actions[k - 1]) {
        SemaphoreStepCounts(states[k - 1], actions[k - 1], i);
      } else {
        OtherStepCounts(states[k - 1], actions[k - 1]);
      }
    }
  }

  /** Conservation over any run: initial count + successful gives == takes granted + count, the
      count stays within its maximum, and nobody waits while it is positive. */
  lemma SemaphoreLaw(states: seq<State>, actions: seq<Action>, k: nat, i: nat)
    requires IsRun(states, actions) && k < |states| && i < |states[0].sems|
    ensures i < |states[k].sems|
    ensures states[0].sems[i].count + Gives(states, actions, k, i)
         == Takes(states, actions, k, i) + states[k].sems[i].count
    ensures states[k].sems[i].count <= states[k].sems[i].maximum
    ensures states[k].sems[i].count > 0 ==> NobodyWaits(states[k], WaitSemaphore, i)
  {
    CountsAreRecorded(states, actions, k, i);
    RunKeeps(states, actions, k);
  }
}
