/** From the call that blocks to the call that returns: what happens to a suspended call, and that
    the queue logs hold exactly the items such calls were given and give back. */
module CallItems {
  import opened Collections
  import opened Words
  import opened KernelState
  import opened KernelSpec
  import opened Invariant
  import opened Frames
  import opened IpcLogs
  import opened Outcomes
  import CallsPreserve
  import MutexPreserve
  import SchedulePreserve

  /** Nothing that a suspended call depends on has changed. */
  predicate Frozen(k: Tcb, k': Tcb) {
    && k'.buffer == k.buffer && k'.past == k.past && k'.waitResult == k.waitResult
    && k'.waitType == k.waitType && k'.waitObject == k.waitObject
    && (k.state == Blocked <==> k'.state == Blocked)
  }

  /** A step lets the blocked task go: a call grants it, or a tick times it out. */
  ghost predicate LetGo(k: Tcb, a: Action, k': Tcb) {
    || (a.Invoke? && GrantedTo(k, k'))
    || (a == TickInterrupt && TimedOut(k, k') && k'.buffer == k.buffer)
  }

  ghost predicate Returns(s: State, a: Action, t: nat) {
    a == ReturnFromWait && s.current == t
  }

  // ----- one step -----

  lemma InvokeHolds(s: State, ctx: Context, api: Api, t: nat)
    requires RunInv(s) && ArgumentsExist(s, api) && (ctx.ThreadMode? ==> ThreadMayCall(s))
    requires t < |s.tasks| && s.tasks[t].past.call.Some?
    ensures var s' := Perform(s, ctx, api).s;
      t < |s'.tasks| && (Frozen(s.tasks[t], s'.tasks[t]) || GrantedTo(s.tasks[t], s'.tasks[t]))
  {
    PerformFrames(s, ctx, api);
  }

  lemma SwitchHolds(s: State, ok: bool, t: nat)
    requires RunInv(s) && t < |s.tasks|
    ensures t < |Schedule(s, ok).tasks| && Frozen(s.tasks[t], Schedule(s, ok).tasks[t])
  {
    SchedulePreserve.PreemptedKeepsWellFormed(s);
  }

  lemma TickHolds(s: State, t: nat)
    requires t < |s.tasks| && CallOk(s.tasks[t]) && s.tasks[t].past.call.Some?
    ensures var s' := Tick(s);
      t < |s'.tasks| && (Frozen(s.tasks[t], s'.tasks[t]) || LetGo(s.tasks[t], TickInterrupt, s'.tasks[t]))
  {
    TickedTcb(s, t);
  }

  /** Until it returns, a suspended call waits unchanged, is let go once, and waits to run. */
  lemma CallStep(s: State, a: Action, t: nat)
    requires RunInv(s) && CallInv(s) && Enabled(s, a) && t < |s.tasks| && s.tasks[t].past.call.Some?
    requires !Returns(s, a, t)
    ensures var s' := Apply(s, a);
      && t < |s'.tasks|
      && (Frozen(s.tasks[t], s'.tasks[t]) || (s.tasks[t].state == Blocked && LetGo(s.tasks[t], a, s'.tasks[t])))
  {
    assert CallOk(s.tasks[t]);
    match a
    case Invoke(ctx, api) => InvokeHolds(s, ctx, api, t);
    case ReturnFromWait =>
    case TaskReturns =>
    case TickInterrupt => TickHolds(s, t);
    case PendSV(ok) => SwitchHolds(s, ok, t);
  }

  // ----- who lets whom go -----

  predicate Stays(s: State, s': State, w: nat)
    requires w < |s.tasks|
  {
    s.tasks[w].state == Blocked && w < |s'.tasks| ==> s'.tasks[w].state == Blocked
  }

  lemma SemaphoreCallsRelease(s: State, ctx: Context, i: nat, timeout: Word, w: nat)
    requires s.current < |s.tasks| && i < |s.sems| && w < |s.tasks| && s.tasks[w].waitType != WaitSemaphore
    ensures Stays(s, Take(s, ctx, i, timeout).s, w) && Stays(s, GiveCommon(s, i).s, w)
  {
  }

  lemma MutexCallsRelease(s: State, ctx: Context, m: nat, timeout: Word, w: nat)
    requires RunInv(s) && (ctx.ThreadMode? ==> ThreadMayCall(s))
    requires m < |s.mutexes| && w < |s.tasks| && s.tasks[w].waitType != WaitMutex
    ensures Stays(s, Lock(s, ctx, m, timeout).s, w) && Stays(s, Unlock(s, ctx, m).s, w)
  {
    if ctx.ThreadMode? && s.mutexes[m] == Some(s.current) {
      MutexPreserve.UnlockCases(s, m);
    }
  }

  /** A send lets go at most the best receiver of its own queue, with the item it sends. */
  lemma SendReleases(s: State, q: nat, item: Item, w: nat)
    requires s.current < |s.tasks| && q < |s.queues| && w < |s.tasks|
    ensures var r, found := SendCommon(s, q, item), FindWaiter(s, WaitQueueReceive, q);
      && (!Stays(s, r.s, w) ==>
            Succeeds(r) && found == Some(w) && Waits(s, w, WaitQueueReceive, q) && r.s.tasks[w].buffer == item)
      && (!Succeeds(r) ==> r == Return(s, ErrBusy))
  {
  }

  /** A receive lets go at most the best sender of its own queue. */
  lemma ReceiveReleases(s: State, q: nat, w: nat)
    requires s.current < |s.tasks| && q < |s.queues| && w < |s.tasks|
    ensures var r := ReceiveCommon(s, q);
      && (!Stays(s, r.s, w) ==>
            && Succeeds(r) && s.queues[q].items != [] && FindWaiter(Pop(s, q), WaitQueueSend, q) == Some(w)
            && Waits(s, w, WaitQueueSend, q))
      && (!Succeeds(r) ==> r == Return(s, ErrBusy))
  {
    CallsPreserve.ReceiveCases(s, q);
  }

  /** A blocked sender that a call lets go has its item accepted. */
  lemma SenderReleased(s: State, ctx: Context, api: Api, q: nat, w: nat)
    requires RunInv(s) && Enabled(s, Invoke(ctx, api)) && w < |s.tasks| && Waits(s, w, WaitQueueSend, q)
    requires !Stays(s, Perform(s, ctx, api).s, w)
    ensures AcceptedBy(s, Invoke(ctx, api), q) == [s.tasks[w].buffer]
  {
    match api
    case TakeCall(i, timeout) => SemaphoreCallsRelease(s, ctx, i, timeout, w);
    case GiveCall(i) => SemaphoreCallsRelease(s, ctx, i, 0, w);
    case GiveFromIsrCall(i) => SemaphoreCallsRelease(s, ctx, i, 0, w);
    case LockCall(m, timeout) => MutexCallsRelease(s, ctx, m, timeout, w);
    case UnlockCall(m) => MutexCallsRelease(s, ctx, m, 0, w);
    case SendCall(p, item, timeout) => SendReleases(s, p, item, w);
    case SendFromIsrCall(p, item) => SendReleases(s, p, item, w);
    case ReceiveCall(p, timeout) => ReleasedIsSender(s, p, w);
    case ReceiveFromIsrCall(p) => ReleasedIsSender(s, p, w);
    case DelayCall(ticks) =>
  }

  lemma ReleasedIsSender(s: State, q: nat, w: nat)
    requires s.current < |s.tasks| && q < |s.queues| && w < |s.tasks|
    ensures var r := ReceiveCommon(s, q);
      && (!Stays(s, r.s, w) ==> Waits(s, w, WaitQueueSend, q) && ReleasedItem(s, r, q) == [s.tasks[w].buffer])
      && (!Succeeds(r) ==> r == Return(s, ErrBusy))
  {
    var r := ReceiveCommon(s, q);
    ReceiveReleases(s, q, w);
    if !Stays(s, r.s, w) {
      assert Released(s, r.s, WaitQueueSend, q, w);
      forall v | 0 <= v < |s.tasks| && Released(s, r.s, WaitQueueSend, q, v) ensures v == w {
        ReceiveReleases(s, q, v);
      }
    }
  }

  /** A blocked receiver that a call lets go has the delivered item in its buffer. */
  lemma ReceiverReleased(s: State, ctx: Context, api: Api, q: nat, w: nat)
    requires RunInv(s) && Enabled(s, Invoke(ctx, api)) && w < |s.tasks| && Waits(s, w, WaitQueueReceive, q)
    requires !Stays(s, Perform(s, ctx, api).s, w)
    ensures var s' := Perform(s, ctx, api).s;
      w < |s'.tasks| && DeliveredBy(s, Invoke(ctx, api), q) == [s'.tasks[w].buffer]
  {
    match api
    case TakeCall(i, timeout) => SemaphoreCallsRelease(s, ctx, i, timeout, w);
    case GiveCall(i) => SemaphoreCallsRelease(s, ctx, i, 0, w);
    case GiveFromIsrCall(i) => SemaphoreCallsRelease(s, ctx, i, 0, w);
    case LockCall(m, timeout) => MutexCallsRelease(s, ctx, m, timeout, w);
    case UnlockCall(m) => MutexCallsRelease(s, ctx, m, 0, w);
    case SendCall(p, item, timeout) => ReleasedIsReceiver(s, p, item, w);
    case SendFromIsrCall(p, item) => ReleasedIsReceiver(s, p, item, w);
    case ReceiveCall(p, timeout) => ReceiveReleases(s, p, w);
    case ReceiveFromIsrCall(p) => ReceiveReleases(s, p, w);
    case DelayCall(ticks) =>
  }

  lemma ReleasedIsReceiver(s: State, q: nat, item: Item, w: nat)
    requires s.current < |s.tasks| && q < |s.queues| && w < |s.tasks|
    ensures var r := SendCommon(s, q, item);
      && (!Stays(s, r.s, w) ==> Waits(s, w, WaitQueueReceive, q) && HandedItem(s, r, q) == [r.s.tasks[w].buffer])
      && (!Succeeds(r) ==> r == Return(s, ErrBusy))
  {
    var r := SendCommon(s, q, item);
    SendReleases(s, q, item, w);
    if !Stays(s, r.s, w) {
      assert Released(s, r.s, WaitQueueReceive, q, w);
      forall v | 0 <= v < |s.tasks| && Released(s, r.s, WaitQueueReceive, q, v) ensures v == w {
        SendReleases(s, q, item, v);
      }
    }
  }

  // ----- the life of a suspended call -----

  /** From state i + 1 to state j, task w is as it was when its call was suspended. */
  ghost predicate Unchanged(states: seq<State>, i: nat, j: nat, w: nat)
    requires i < j < |states|
  {
    forall k :: i < k <= j ==>
      && w < |states[i + 1].tasks| && w < |states[k].tasks|
      && Frozen(states[i + 1].tasks[w], states[k].tasks[w])
  }

  /** Task w is suspended by step i, let go by step r, and its call has not returned before step j. */
  ghost predicate LetGoAt(states: seq<State>, actions: seq<Action>, i: nat, r: nat, j: nat, w: nat)
    requires i < j < |states| && |states| == |actions| + 1
  {
    && i < r < j && Unchanged(states, i, r, w) && Unchanged(states, r, j, w)
    && LetGo(states[r].tasks[w], actions[r], states[r + 1].tasks[w])
  }

  ghost predicate SuspendedAt(s: State, w: nat) {
    w < |s.tasks| && s.tasks[w].state == Blocked && s.tasks[w].past.call.Some?
  }

  lemma CallsKept(states: seq<State>, actions: seq<Action>, k: nat)
    requires IsRun(states, actions) && k < |actions|
    ensures RunInv(states[k]) && CallInv(states[k])
    ensures Enabled(states[k], actions[k]) && states[k + 1] == Apply(states[k], actions[k])
  {
    SchedulePreserve.RunKeeps(states, actions, k);
  }

  lemma UnchangedStarts(states: seq<State>, i: nat, w: nat)
    requires i + 1 < |states| && SuspendedAt(states[i + 1], w)
    ensures Unchanged(states, i, i + 1, w)
  {
  }

  lemma UnchangedOnward(states: seq<State>, i: nat, j: nat, w: nat)
    requires i < j < |states| - 1 && Unchanged(states, i, j, w)
    requires w < |states[j].tasks| && w < |states[j + 1].tasks| && Frozen(states[j].tasks[w], states[j + 1].tasks[w])
    ensures Unchanged(states, i, j + 1, w)
  {
  }

  /** One more step of a call that is still suspended. */
  lemma SuspendedStep(states: seq<State>, actions: seq<Action>, i: nat, j: nat, w: nat)
    requires IsRun(states, actions) && i < j < |actions| && SuspendedAt(states[i + 1], w)
    requires Unchanged(states, i, j, w) && !Returns(states[j], actions[j], w)
    ensures |states| == |actions| + 1
    ensures Unchanged(states, i, j + 1, w) || LetGoAt(states, actions, i, j, j + 1, w)
  {
    RunLength(states, actions);
    CallsKept(states, actions, j);
    hide IsRun, Enabled, Apply, RunInv, CallInv, LetGo;
    CallStep(states[j], actions[j], w);
    if Frozen(states[j].tasks[w], states[j + 1].tasks[w]) {
      UnchangedOnward(states, i, j, w);
    }
  }

  /** One more step of a call that has been let go. */
  lemma LetGoStep(states: seq<State>, actions: seq<Action>, i: nat, r: nat, j: nat, w: nat)
    requires IsRun(states, actions) && i < j < |actions| && |states| == |actions| + 1
    requires SuspendedAt(states[i + 1], w)
    requires LetGoAt(states, actions, i, r, j, w) && !Returns(states[j], actions[j], w)
    ensures LetGoAt(states, actions, i, r, j + 1, w)
  {
    assert Frozen(states[r + 1].tasks[w], states[j].tasks[w]) && Frozen(states[i + 1].tasks[w], states[r].tasks[w]);
    CallsKept(states, actions, j);
    hide IsRun, Enabled, Apply, RunInv, CallInv;
    CallStep(states[j], actions[j], w);
    UnchangedOnward(states, r, j, w);
  }

  lemma {:induction false} CallLives(states: seq<State>, actions: seq<Action>, i: nat, j: nat, w: nat)
    returns (r: Option<nat>)
    requires IsRun(states, actions) && i < j < |states| && SuspendedAt(states[i + 1], w)
    requires forall k :: i < k < j ==> !Returns(states[k], actions[k], w)
    ensures |states| == |actions| + 1
    ensures if r.None? then Unchanged(states, i, j, w) else LetGoAt(states, actions, i, r.value, j, w)
  {
    hide *;
    RunLength(states, actions);
    if j == i + 1 {
      r := None;
      UnchangedStarts(states, i, w);
    } else {
      var last := j - 1;
      r := CallLives(states, actions, i, last, w);
      if r.Some? {
        LetGoStep(states, actions, i, r.value, last, w);
      } else {
        SuspendedStep(states, actions, i, last, w);
        if !Unchanged(states, i, j, w) {
          r := Some(last);
        }
      }
    }
  }

  // ----- a call from its start to its return -----

  /** Step i makes a call, and step j returns it: step i itself if the call is not suspended, and
      otherwise the next return of the task that made it. */
  ghost predicate CallSpan(states: seq<State>, actions: seq<Action>, i: nat, j: nat, ctx: Context, api: Api) {
    && IsRun(states, actions) && |states| == |actions| + 1 && i <= j < |actions|
    && actions[i] == Invoke(ctx, api) && Enabled(states[i], actions[i])
    && if Perform(states[i], ctx, api).reply.Suspended? then
         && i < j && Returns(states[j], actions[j], states[i].current)
         && forall k :: i < k < j ==> !Returns(states[k], actions[k], states[i].current)
       else i == j
  }

  /** What the caller gets. */
  ghost function ReplyOf(states: seq<State>, actions: seq<Action>, i: nat, j: nat, ctx: Context, api: Api): Reply
    requires CallSpan(states, actions, i, j, ctx, api)
  {
    if i == j then Perform(states[i], ctx, api).reply
    else
      assert Enabled(states[j], actions[j]);
      Resume(states[j]).reply
  }

  /** What a suspending call leaves in its task's control block. */
  ghost predicate Suspends(s: State, api: Api, k: Tcb) {
    && k.state == Blocked && k.past.call.Some? && s.current < |s.tasks|
    && match api
       case TakeCall(i, _) => k.waitType == WaitSemaphore && k.waitObject == Some(i)
       case LockCall(m, _) => k.waitType == WaitMutex && k.waitObject == Some(m)
       case SendCall(q, item, _) => k.waitType == WaitQueueSend && k.waitObject == Some(q) && k.buffer == item
       case ReceiveCall(q, _) => k.waitType == WaitQueueReceive && k.waitObject == Some(q) && k.buffer == []
       case _ => false
  }

  lemma SuspendingCall(s: State, ctx: Context, api: Api)
    requires Enabled(s, Invoke(ctx, api)) && Perform(s, ctx, api).reply.Suspended?
    ensures var s' := Apply(s, Invoke(ctx, api));
      && ctx == ThreadMode && |s'.tasks| == |s.tasks| && s'.mutexes == s.mutexes
      && Suspends(s, api, s'.tasks[s.current])
      && s'.tasks[s.current].past.call
           == Some(Call(s'.tasks[s.current].waitType, s'.tasks[s.current].waitObject.value))
  {
  }

  /** A suspended call has exactly one step that lets it go, and its reply tells which kind. */
  lemma SpanOfSuspended(states: seq<State>, actions: seq<Action>, i: nat, j: nat, ctx: Context, api: Api)
    returns (r: nat)
    requires CallSpan(states, actions, i, j, ctx, api) && i < j
    ensures var w := states[i].current;
      && |states| == |actions| + 1 && w < |states[i + 1].tasks| && w < |states[j].tasks|
      && LetGoAt(states, actions, i, r, j, w)
      && Suspends(states[i], api, states[i + 1].tasks[w])
      && states[i + 1].tasks[w].past.call
           == Some(Call(states[i + 1].tasks[w].waitType, states[i + 1].tasks[w].waitObject.value))
      && states[j].current == w && states[j].tasks[w].state == Running
  {
    var w := states[i].current;
    RunLength(states, actions);
    CallsKept(states, actions, i);
    CallsKept(states, actions, j);
    SuspendingCall(states[i], ctx, api);
    var found := CallLives(states, actions, i, j, w);
    assert states[j].tasks[w].state == Running;
    assert found.Some?;
    r := found.value;
  }

  /** Step r is the one step between i and j in which task w stops waiting for o. */
  ghost predicate OnlyRelease(states: seq<State>, i: nat, r: nat, j: nat, wt: WaitType, o: nat, w: nat)
    requires j < |states|
  {
    && i < r < j
    && forall k :: i < k < j ==> (Released(states[k], states[k + 1], wt, o, w) <==> k == r)
  }

  lemma ReleaseIsUnique(states: seq<State>, actions: seq<Action>, i: nat, r: nat, j: nat, wt: WaitType, o: nat, w: nat)
    requires |states| == |actions| + 1 && i < j < |states| && LetGoAt(states, actions, i, r, j, w)
    requires w < |states[i + 1].tasks| && Waits(states[i + 1], w, wt, o)
    ensures OnlyRelease(states, i, r, j, wt, o, w) && Waits(states[r], w, wt, o)
  {
    assert forall k :: i < k <= r ==> Waits(states[k], w, wt, o);
    assert forall k :: r < k <= j ==> states[k].tasks[w].state != Blocked;
  }

  /** The reply of a suspended call says how it was let go. */
  lemma ReplyTellsRelease(states: seq<State>, actions: seq<Action>, i: nat, r: nat, j: nat, w: nat)
    requires |states| == |actions| + 1 && i < j < |states| && LetGoAt(states, actions, i, r, j, w)
    requires states[j].current == w && w < |states[j].tasks| && w < |states[i + 1].tasks|
    ensures w < |states[r].tasks| && w < |states[r + 1].tasks|
    ensures states[r].tasks[w].state == Blocked && states[r + 1].tasks[w].state != Blocked
    ensures states[j].tasks[w].buffer == states[r + 1].tasks[w].buffer
    ensures states[r].tasks[w].buffer == states[i + 1].tasks[w].buffer
    ensures states[j].tasks[w].past.call == states[i + 1].tasks[w].past.call
    ensures var status := Resume(states[j]).reply.status;
      if status == Ok then actions[r].Invoke? && states[j].tasks[w].past.granted
      else && status == ErrTimeout && actions[r] == TickInterrupt && !states[j].tasks[w].past.granted
           && states[r + 1].tasks[w].buffer == states[r].tasks[w].buffer
  {
    assert Frozen(states[i + 1].tasks[w], states[r].tasks[w]) && Frozen(states[r + 1].tasks[w], states[j].tasks[w]);
  }

  // ----- what a send, a receive and a lock contribute -----

  lemma ImmediateSend(s: State, ctx: Context, q: nat, item: Item, timeout: Word)
    requires Enabled(s, Invoke(ctx, SendCall(q, item, timeout)))
    ensures var reply := Perform(s, ctx, SendCall(q, item, timeout)).reply;
      AcceptedBy(s, Invoke(ctx, SendCall(q, item, timeout)), q)
        == if reply.Returned? && reply.status == Ok then [item] else []
  {
  }

  lemma SuspendedSend(states: seq<State>, actions: seq<Action>, i: nat, j: nat,
                      ctx: Context, q: nat, item: Item, timeout: Word) returns (r: nat)
    requires CallSpan(states, actions, i, j, ctx, SendCall(q, item, timeout)) && i < j
    ensures i < r < j && Enabled(states[r], actions[r])
    ensures OnlyRelease(states, i, r, j, WaitQueueSend, q, states[i].current)
    ensures var status := ReplyOf(states, actions, i, j, ctx, SendCall(q, item, timeout)).status;
      && AcceptedBy(states[r], actions[r], q) == (if status == Ok then [item] else [])
      && (status == Ok || (status == ErrTimeout && actions[r] == TickInterrupt))
  {
    hide IsRun, RunInv, CallInv, LetGoAt, OnlyRelease, Unchanged;
    var w := states[i].current;
    r := SpanOfSuspended(states, actions, i, j, ctx, SendCall(q, item, timeout));
    ReleaseIsUnique(states, actions, i, r, j, WaitQueueSend, q, w);
    ReplyTellsRelease(states, actions, i, r, j, w);
    CallsKept(states, actions, r);
    if actions[r].Invoke? {
      SenderReleased(states[r], actions[r].ctx, actions[r].api, q, w);
    }
  }

  /** The item a queue logs as accepted for a send is the item of the call, logged once if the call
      returns Ok, and by no step of it if the call returns anything else. It returns Ok at once
      exactly if a receiver waits or there is room, and waits exactly if neither and it may. */
  lemma SendContributes(states: seq<State>, actions: seq<Action>, i: nat, j: nat,
                        ctx: Context, q: nat, item: Item, timeout: Word) returns (r: nat)
    requires CallSpan(states, actions, i, j, ctx, SendCall(q, item, timeout))
    ensures i <= r <= j && Enabled(states[r], actions[r])
    ensures var status := ReplyOf(states, actions, i, j, ctx, SendCall(q, item, timeout)).status;
      && AcceptedBy(states[r], actions[r], q) == (if status == Ok then [item] else [])
      && if i == j then r == i
         else
           && AcceptedBy(states[i], actions[i], q) == []
           && OnlyRelease(states, i, r, j, WaitQueueSend, q, states[i].current)
           && (status == Ok || (status == ErrTimeout && actions[r] == TickInterrupt))
    ensures ctx == ThreadMode && TimeoutInRange(timeout) ==>
      var status := ReplyOf(states, actions, i, j, ctx, SendCall(q, item, timeout)).status;
      && (i == j && status == Ok <==> MaySend(states[i], q))
      && (i < j <==> !MaySend(states[i], q) && timeout != 0)
  {
    hide IsRun, Enabled, AcceptedBy, Perform, Resume, OnlyRelease, MaySend, Sent, SuspendedOn;
    ImmediateSend(states[i], ctx, q, item, timeout);
    if ctx == ThreadMode && TimeoutInRange(timeout) {
      SendExact(states[i], q, item, timeout);
    }
    if i == j {
      r := i;
    } else {
      r := SuspendedSend(states, actions, i, j, ctx, q, item, timeout);
    }
  }

  lemma ImmediateReceive(s: State, ctx: Context, q: nat, timeout: Word)
    requires Enabled(s, Invoke(ctx, ReceiveCall(q, timeout)))
    ensures var reply := Perform(s, ctx, ReceiveCall(q, timeout)).reply;
      && DeliveredBy(s, Invoke(ctx, ReceiveCall(q, timeout)), q)
           == (if reply.Returned? && reply.status == Ok then [reply.item] else [])
      && (reply.Returned? && reply.status != Ok ==> reply.item == [])
  {
  }

  lemma SuspendedReceive(states: seq<State>, actions: seq<Action>, i: nat, j: nat,
                         ctx: Context, q: nat, timeout: Word) returns (r: nat)
    requires CallSpan(states, actions, i, j, ctx, ReceiveCall(q, timeout)) && i < j
    ensures i < r < j && Enabled(states[r], actions[r])
    ensures OnlyRelease(states, i, r, j, WaitQueueReceive, q, states[i].current)
    ensures var reply := ReplyOf(states, actions, i, j, ctx, ReceiveCall(q, timeout));
      && DeliveredBy(states[r], actions[r], q) == (if reply.status == Ok then [reply.item] else [])
      && (reply.status == Ok || (reply.status == ErrTimeout && actions[r] == TickInterrupt && reply.item == []))
  {
    hide IsRun, RunInv, CallInv, LetGoAt, OnlyRelease, Unchanged;
    var w := states[i].current;
    r := SpanOfSuspended(states, actions, i, j, ctx, ReceiveCall(q, timeout));
    ReleaseIsUnique(states, actions, i, r, j, WaitQueueReceive, q, w);
    ReplyTellsRelease(states, actions, i, r, j, w);
    CallsKept(states, actions, r);
    if actions[r].Invoke? {
      ReceiverReleased(states[r], actions[r].ctx, actions[r].api, q, w);
    }
  }

  /** The item a queue logs as delivered to a receive is the item the call returns, logged once if
      it returns Ok, and nothing if it returns anything else. It returns Ok at once exactly if there
      is an item, and waits exactly if there is none and it may. */
  lemma ReceiveContributes(states: seq<State>, actions: seq<Action>, i: nat, j: nat,
                           ctx: Context, q: nat, timeout: Word) returns (r: nat)
    requires CallSpan(states, actions, i, j, ctx, ReceiveCall(q, timeout))
    ensures i <= r <= j && Enabled(states[r], actions[r])
    ensures var reply := ReplyOf(states, actions, i, j, ctx, ReceiveCall(q, timeout));
      && DeliveredBy(states[r], actions[r], q) == (if reply.status == Ok then [reply.item] else [])
      && (reply.status != Ok ==> reply.item == [])
      && if i == j then r == i
         else
           && DeliveredBy(states[i], actions[i], q) == []
           && OnlyRelease(states, i, r, j, WaitQueueReceive, q, states[i].current)
           && (reply.status == Ok || (reply.status == ErrTimeout && actions[r] == TickInterrupt))
    ensures ctx == ThreadMode && TimeoutInRange(timeout) ==>
      var status := ReplyOf(states, actions, i, j, ctx, ReceiveCall(q, timeout)).status;
      var items := states[i].queues[q].items;
      && (i == j && status == Ok <==> items != [])
      && (i < j <==> items == [] && timeout != 0)
  {
    hide IsRun, Enabled, DeliveredBy, Perform, Resume, OnlyRelease, Received, SuspendedOn;
    ImmediateReceive(states[i], ctx, q, timeout);
    if ctx == ThreadMode && TimeoutInRange(timeout) {
      ReceiveExact(states[i], q, timeout);
    }
    if i == j {
      r := i;
    } else {
      r := SuspendedReceive(states, actions, i, j, ctx, q, timeout);
    }
  }

  lemma TakerReleased(s: State, ctx: Context, api: Api, o: nat, w: nat)
    requires RunInv(s) && Enabled(s, Invoke(ctx, api)) && w < |s.tasks| && Waits(s, w, WaitSemaphore, o)
    requires !Stays(s, Perform(s, ctx, api).s, w)
    ensures TakesBy(s, Invoke(ctx, api), o) == 1
  {
    match api
    case GiveCall(i) => GiveReleases(s, i, w);
    case GiveFromIsrCall(i) => GiveReleases(s, i, w);
    case LockCall(m, timeout) => MutexCallsRelease(s, ctx, m, timeout, w);
    case UnlockCall(m) => MutexCallsRelease(s, ctx, m, 0, w);
    case SendCall(p, item, timeout) => SendReleases(s, p, item, w);
    case SendFromIsrCall(p, item) => SendReleases(s, p, item, w);
    case ReceiveCall(p, timeout) => ReceiveReleases(s, p, w);
    case ReceiveFromIsrCall(p) => ReceiveReleases(s, p, w);
    case _ =>
  }

  lemma GiveReleases(s: State, i: nat, w: nat)
    requires s.current < |s.tasks| && i < |s.sems| && w < |s.tasks| && !Stays(s, GiveCommon(s, i).s, w)
    ensures Waits(s, w, WaitSemaphore, i) && AnyReleased(s, GiveCommon(s, i).s, WaitSemaphore, i)
  {
    assert Waits(s, w, WaitSemaphore, i);
    assert Released(s, GiveCommon(s, i).s, WaitSemaphore, i, w);
  }

  lemma ImmediateTake(s: State, ctx: Context, o: nat, timeout: Word)
    requires Enabled(s, Invoke(ctx, TakeCall(o, timeout)))
    ensures var reply := Perform(s, ctx, TakeCall(o, timeout)).reply;
      TakesBy(s, Invoke(ctx, TakeCall(o, timeout)), o) == if reply.Returned? && reply.status == Ok then 1 else 0
  {
  }

  lemma SuspendedTake(states: seq<State>, actions: seq<Action>, i: nat, j: nat, ctx: Context, o: nat, timeout: Word)
    returns (r: nat)
    requires CallSpan(states, actions, i, j, ctx, TakeCall(o, timeout)) && i < j
    ensures i < r < j && Enabled(states[r], actions[r])
    ensures OnlyRelease(states, i, r, j, WaitSemaphore, o, states[i].current)
    ensures var status := ReplyOf(states, actions, i, j, ctx, TakeCall(o, timeout)).status;
      && TakesBy(states[r], actions[r], o) == (if status == Ok then 1 else 0)
      && (status == Ok || (status == ErrTimeout && actions[r] == TickInterrupt))
  {
    hide IsRun, RunInv, CallInv, LetGoAt, OnlyRelease, Unchanged;
    var w := states[i].current;
    r := SpanOfSuspended(states, actions, i, j, ctx, TakeCall(o, timeout));
    ReleaseIsUnique(states, actions, i, r, j, WaitSemaphore, o, w);
    ReplyTellsRelease(states, actions, i, r, j, w);
    CallsKept(states, actions, r);
    if actions[r].Invoke? {
      TakerReleased(states[r], actions[r].ctx, actions[r].api, o, w);
    }
  }

  lemma TakeAnswers(states: seq<State>, actions: seq<Action>, i: nat, j: nat, o: nat, timeout: Word)
    requires CallSpan(states, actions, i, j, ThreadMode, TakeCall(o, timeout)) && TimeoutInRange(timeout)
    ensures var reply := ReplyOf(states, actions, i, j, ThreadMode, TakeCall(o, timeout));
      && reply.Returned?
      && (i == j && reply.status == Ok <==> states[i].sems[o].count > 0)
      && (i < j <==> states[i].sems[o].count == 0 && timeout != 0)
  {
    hide IsRun, SuspendedOn;
    TakeExact(states[i], o, timeout);
  }

  /** A take counts once if it returns Ok, in the step that grants it, and never if it does not. It
      returns Ok at once exactly if the count is positive, and waits exactly if not and it may. */
  lemma TakeContributes(states: seq<State>, actions: seq<Action>, i: nat, j: nat, ctx: Context, o: nat, timeout: Word)
    returns (r: nat)
    requires CallSpan(states, actions, i, j, ctx, TakeCall(o, timeout))
    ensures i <= r <= j && Enabled(states[r], actions[r])
    ensures var status := ReplyOf(states, actions, i, j, ctx, TakeCall(o, timeout)).status;
      && TakesBy(states[r], actions[r], o) == (if status == Ok then 1 else 0)
      && if i == j then r == i
         else
           && TakesBy(states[i], actions[i], o) == 0
           && OnlyRelease(states, i, r, j, WaitSemaphore, o, states[i].current)
           && (status == Ok || (status == ErrTimeout && actions[r] == TickInterrupt))
    ensures ctx == ThreadMode && TimeoutInRange(timeout) ==>
      var status, count := ReplyOf(states, actions, i, j, ctx, TakeCall(o, timeout)).status, states[i].sems[o].count;
      && (i == j && status == Ok <==> count > 0)
      && (i < j <==> count == 0 && timeout != 0)
  {
    hide IsRun, Enabled, TakesBy, Perform, Resume, OnlyRelease, SuspendedOn;
    ImmediateTake(states[i], ctx, o, timeout);
    if ctx == ThreadMode && TimeoutInRange(timeout) {
      TakeAnswers(states, actions, i, j, o, timeout);
    }
    if i == j {
      r := i;
    } else {
      r := SuspendedTake(states, actions, i, j, ctx, o, timeout);
    }
  }

  lemma ImmediateLock(s: State, ctx: Context, m: nat, timeout: Word)
    requires Enabled(s, Invoke(ctx, LockCall(m, timeout)))
    ensures var r := Perform(s, ctx, LockCall(m, timeout));
      && |r.s.mutexes| == |s.mutexes|
      && (r.reply.Returned? ==>
            (r.reply.status == Ok <==> s.mutexes[m] != Some(s.current) && r.s.mutexes[m] == Some(s.current)))
      && (r.reply.Suspended? || r.reply.status != Ok ==> r.s.mutexes == s.mutexes)
      && (r.reply.Suspended? ==> s.mutexes[m] != Some(s.current))
  {
  }

  lemma SuspendedLock(states: seq<State>, actions: seq<Action>, i: nat, j: nat, ctx: Context, m: nat, timeout: Word)
    requires CallSpan(states, actions, i, j, ctx, LockCall(m, timeout)) && i < j
    ensures |states| == |actions| + 1 && m < |states[j + 1].mutexes|
    ensures var status := ReplyOf(states, actions, i, j, ctx, LockCall(m, timeout)).status;
      (status == Ok || status == ErrTimeout)
      && (status == Ok <==> states[j + 1].mutexes[m] == Some(states[i].current))
  {
    hide IsRun, RunInv, CallInv, LetGoAt, OnlyRelease, Unchanged;
    var r := SpanOfSuspended(states, actions, i, j, ctx, LockCall(m, timeout));
    ReplyTellsRelease(states, actions, i, r, j, states[i].current);
    LockReturns(states, actions, j, m);
  }

  /** A lock call returns Ok exactly if it made its caller the owner, whether at once or after a
      wait; unless it returns Ok at once, its own step changes no owner. It returns Ok at once
      exactly if the mutex is free, and waits exactly if another task owns it and it may. */
  lemma LockContributes(states: seq<State>, actions: seq<Action>, i: nat, j: nat, ctx: Context, m: nat, timeout: Word)
    requires CallSpan(states, actions, i, j, ctx, LockCall(m, timeout))
    ensures |states| == |actions| + 1 && m < |states[i].mutexes| && m < |states[j + 1].mutexes|
    ensures var status, w := ReplyOf(states, actions, i, j, ctx, LockCall(m, timeout)).status, states[i].current;
      && (status == Ok <==> states[i].mutexes[m] != Some(w) && states[j + 1].mutexes[m] == Some(w))
      && (status != Ok || i < j ==> states[i + 1].mutexes == states[i].mutexes)
      && (i < j ==> status == Ok || status == ErrTimeout)
    ensures ctx == ThreadMode && TimeoutInRange(timeout) ==>
      var status, owner := ReplyOf(states, actions, i, j, ctx, LockCall(m, timeout)).status, states[i].mutexes[m];
      && (i == j && status == Ok <==> owner == None)
      && (i < j <==> owner.Some? && owner.value != states[i].current && timeout != 0)
  {
    RunLength(states, actions);
    CallsKept(states, actions, i);
    ImmediateLock(states[i], ctx, m, timeout);
    if ctx == ThreadMode && TimeoutInRange(timeout) {
      LockExact(states[i], m, timeout);
    }
    hide IsRun, RunInv, CallInv, Perform, Resume;
    if i < j {
      SuspendedLock(states, actions, i, j, ctx, m, timeout);
    }
  }

  lemma LockReturns(states: seq<State>, actions: seq<Action>, j: nat, m: nat)
    requires IsRun(states, actions) && j < |actions| && actions[j] == ReturnFromWait
    requires var s := states[j]; s.current < |s.tasks| && s.tasks[s.current].past.call == Some(Call(WaitMutex, m))
    ensures |states| == |actions| + 1 && m < |states[j].mutexes| && states[j + 1].mutexes == states[j].mutexes
    ensures states[j].tasks[states[j].current].past.granted <==> states[j].mutexes[m] == Some(states[j].current)
  {
    RunLength(states, actions);
    CallsKept(states, actions, j);
    SchedulePreserve.RunKeeps(states, actions, j);
    var s := states[j];
    assert CallOk(s.tasks[s.current]) && CallOnObject(s, s.tasks[s.current]);
    assert Ended(s.tasks[s.current], WaitMutex, m);
  }

  // ----- back from a hand-off to the call it serves -----

  /** Only a suspending call blocks a task. */
  lemma BlocksBy(s: State, a: Action, t: nat)
    requires RunInv(s) && Enabled(s, a) && t < |s.tasks| && s.tasks[t].state != Blocked
    requires t < |Apply(s, a).tasks| && Apply(s, a).tasks[t].state == Blocked
    ensures a.Invoke? && t == s.current && Perform(s, a.ctx, a.api).reply.Suspended?
  {
    match a
    case Invoke(ctx, api) => InvokeBlocks(s, ctx, api, t);
    case ReturnFromWait =>
    case TaskReturns =>
    case TickInterrupt => TickedTcb(s, t);
    case PendSV(ok) => SchedulePreserve.PreemptedKeepsWellFormed(s);
  }

  /** If task t is blocked by a call, it made the call. */
  predicate BlocksCaller(s: State, r: Outcome, t: nat)
    requires t < |s.tasks|
  {
    s.tasks[t].state != Blocked && t < |r.s.tasks| && r.s.tasks[t].state == Blocked ==>
      t == s.current && r.reply.Suspended?
  }

  lemma MutexCallsBlock(s: State, ctx: Context, m: nat, timeout: Word, t: nat)
    requires RunInv(s) && (ctx.ThreadMode? ==> ThreadMayCall(s)) && m < |s.mutexes| && t < |s.tasks|
    ensures BlocksCaller(s, Lock(s, ctx, m, timeout), t) && BlocksCaller(s, Unlock(s, ctx, m), t)
  {
    if ctx.ThreadMode? && s.mutexes[m] == Some(s.current) {
      MutexPreserve.UnlockCases(s, m);
    }
  }

  lemma ReceivesBlock(s: State, ctx: Context, q: nat, timeout: Word, t: nat)
    requires s.current < |s.tasks| && q < |s.queues| && t < |s.tasks|
    ensures BlocksCaller(s, Receive(s, ctx, q, timeout), t) && BlocksCaller(s, ReceiveFromIsr(s, ctx, q), t)
  {
    CallsPreserve.ReceiveCases(s, q);
  }

  lemma SendsBlock(s: State, ctx: Context, q: nat, item: Item, timeout: Word, t: nat)
    requires s.current < |s.tasks| && q < |s.queues| && t < |s.tasks|
    ensures BlocksCaller(s, Send(s, ctx, q, item, timeout), t) && BlocksCaller(s, SendFromIsr(s, ctx, q, item), t)
  {
  }

  lemma InvokeBlocks(s: State, ctx: Context, api: Api, t: nat)
    requires RunInv(s) && ArgumentsExist(s, api) && (ctx.ThreadMode? ==> ThreadMayCall(s)) && t < |s.tasks|
    ensures BlocksCaller(s, Perform(s, ctx, api), t)
  {
    match api
    case LockCall(m, timeout) => MutexCallsBlock(s, ctx, m, timeout, t);
    case UnlockCall(m) => MutexCallsBlock(s, ctx, m, 0, t);
    case SendCall(q, item, timeout) => SendsBlock(s, ctx, q, item, timeout, t);
    case SendFromIsrCall(q, item) => SendsBlock(s, ctx, q, item, 0, t);
    case ReceiveCall(q, timeout) => ReceivesBlock(s, ctx, q, timeout, t);
    case ReceiveFromIsrCall(q) => ReceivesBlock(s, ctx, q, 0, t);
    case _ =>
  }

  lemma NobodyStartsBlocked(states: seq<State>, actions: seq<Action>, w: nat)
    requires IsRun(states, actions) && w < |states[0].tasks|
    ensures states[0].tasks[w].state != Blocked
  {
    var b :| Booted(b) && states[0] == Start(b);
    assert Runnable(b.tasks[0]) && FreshTcb(b.tasks[w]);
  }

  /** Every blocked task was blocked by a call of its own, and has waited unchanged since. */
  lemma {:induction false} BlockedByCall(states: seq<State>, actions: seq<Action>, k: nat, w: nat) returns (i: nat)
    requires IsRun(states, actions) && k < |states| && w < |states[k].tasks| && states[k].tasks[w].state == Blocked
    ensures i < k && i < |actions| && states[i].current == w && Unchanged(states, i, k, w)
    ensures Enabled(states[i], actions[i]) && actions[i].Invoke?
    ensures Perform(states[i], actions[i].ctx, actions[i].api).reply.Suspended?
    ensures Suspends(states[i], actions[i].api, states[i + 1].tasks[w])
  {
    RunLength(states, actions);
    if k == 0 {
      NobodyStartsBlocked(states, actions, w);
    } else {
      var last := k - 1;
      TaskCountKept(states, actions, last);
      if states[last].tasks[w].state == Blocked {
        i := BlockedByCall(states, actions, last, w);
        StillBlocked(states, actions, i, last, w);
      } else {
        i := last;
        FirstBlocked(states, actions, last, w);
      }
    }
  }

  lemma TaskCountKept(states: seq<State>, actions: seq<Action>, k: nat)
    requires IsRun(states, actions) && k < |actions|
    ensures |states| == |actions| + 1 && |states[k + 1].tasks| == |states[k].tasks|
  {
    RunLength(states, actions);
    CallsKept(states, actions, k);
    match actions[k]
    case Invoke(ctx, api) => PerformFrames(states[k], ctx, api);
    case ReturnFromWait =>
    case TaskReturns =>
    case TickInterrupt => MutexPreserve.TickShape(states[k]);
    case PendSV(ok) => SwitchFrames(states[k], ok);
  }

  lemma StillBlocked(states: seq<State>, actions: seq<Action>, i: nat, k: nat, w: nat)
    requires IsRun(states, actions) && i < k < |actions| && Unchanged(states, i, k, w)
    requires w < |states[k].tasks| && states[k].tasks[w].state == Blocked
    requires |states| == |actions| + 1 && w < |states[k + 1].tasks| && states[k + 1].tasks[w].state == Blocked
    ensures Unchanged(states, i, k + 1, w)
  {
    CallsKept(states, actions, k);
    assert CallOk(states[k].tasks[w]);
    assert !Returns(states[k], actions[k], w);
    CallStep(states[k], actions[k], w);
    UnchangedOnward(states, i, k, w);
  }

  lemma FirstBlocked(states: seq<State>, actions: seq<Action>, k: nat, w: nat)
    requires IsRun(states, actions) && k < |actions| && w < |states[k].tasks| && states[k].tasks[w].state != Blocked
    requires |states| == |actions| + 1 && w < |states[k + 1].tasks| && states[k + 1].tasks[w].state == Blocked
    ensures states[k].current == w && Unchanged(states, k, k + 1, w)
    ensures Enabled(states[k], actions[k]) && actions[k].Invoke?
    ensures Perform(states[k], actions[k].ctx, actions[k].api).reply.Suspended?
    ensures Suspends(states[k], actions[k].api, states[k + 1].tasks[w])
  {
    CallsKept(states, actions, k);
    BlocksBy(states[k], actions[k], w);
    SuspendingCall(states[k], actions[k].ctx, actions[k].api);
  }

  /** A blocked sender that a step lets go was blocked by a send of the very item that the step
      accepts; a timeout accepts none. */
  lemma AcceptedWasSent(states: seq<State>, actions: seq<Action>, r: nat, q: nat, w: nat)
    returns (i: nat, item: Item, timeout: Word)
    requires IsRun(states, actions) && r + 1 < |states| && Released(states[r], states[r + 1], WaitQueueSend, q, w)
    ensures i < r < |actions| && states[i].current == w && Enabled(states[r], actions[r])
    ensures actions[i] == Invoke(ThreadMode, SendCall(q, item, timeout)) && Enabled(states[i], actions[i])
    ensures Perform(states[i], ThreadMode, SendCall(q, item, timeout)).reply.Suspended?
    ensures forall k :: i < k <= r ==> w < |states[k].tasks| && Waits(states[k], w, WaitQueueSend, q)
    ensures AcceptedBy(states[r], actions[r], q) == if actions[r] == TickInterrupt then [] else [item]
  {
    RunLength(states, actions);
    CallsKept(states, actions, r);
    i := BlockedByCall(states, actions, r, w);
    SuspendingCall(states[i], actions[i].ctx, actions[i].api);
    item, timeout := actions[i].api.item, actions[i].api.timeout;
    ReleaseByKind(states[r], actions[r], w);
    if actions[r].Invoke? {
      SenderReleased(states[r], actions[r].ctx, actions[r].api, q, w);
    }
  }

  /** A blocked receiver that a step lets go was blocked by a receive, and what the step delivers
      is the item that this receive returns, at the next return of its task. */
  lemma DeliveredIsReturned(states: seq<State>, actions: seq<Action>, r: nat, j: nat, q: nat, w: nat)
    returns (i: nat, timeout: Word)
    requires IsRun(states, actions) && r < j < |actions| && r + 1 < |states|
    requires Released(states[r], states[r + 1], WaitQueueReceive, q, w)
    requires Returns(states[j], actions[j], w) && forall k :: r < k < j ==> !Returns(states[k], actions[k], w)
    ensures i < r && states[i].current == w && CallSpan(states, actions, i, j, ThreadMode, ReceiveCall(q, timeout))
    ensures var reply := ReplyOf(states, actions, i, j, ThreadMode, ReceiveCall(q, timeout));
      && Enabled(states[r], actions[r])
      && DeliveredBy(states[r], actions[r], q) == (if reply.status == Ok then [reply.item] else [])
  {
    RunLength(states, actions);
    i := BlockedByCall(states, actions, r, w);
    CallsKept(states, actions, r);
    SuspendingCall(states[i], actions[i].ctx, actions[i].api);
    timeout := actions[i].api.timeout;
    BlockedDoesNotReturn(states, actions, i, r, w);
    var only := ReceiveContributes(states, actions, i, j, ThreadMode, q, timeout);
    assert only == r;
  }

  lemma BlockedDoesNotReturn(states: seq<State>, actions: seq<Action>, i: nat, r: nat, w: nat)
    requires IsRun(states, actions) && i < r < |actions| && |states| == |actions| + 1 && Unchanged(states, i, r, w)
    requires w < |states[i + 1].tasks| && states[i + 1].tasks[w].state == Blocked
    ensures forall k :: i < k <= r ==> !Returns(states[k], actions[k], w)
  {
    forall k | i < k <= r ensures !Returns(states[k], actions[k], w) {
      CallsKept(states, actions, k);
      assert Frozen(states[i + 1].tasks[w], states[k].tasks[w]);
    }
  }

  lemma ReleaseByKind(s: State, a: Action, w: nat)
    requires RunInv(s) && CallInv(s) && Enabled(s, a) && w < |s.tasks| && s.tasks[w].state == Blocked
    requires w < |Apply(s, a).tasks| && Apply(s, a).tasks[w].state != Blocked
    ensures a.Invoke? || a == TickInterrupt
  {
    assert CallOk(s.tasks[w]);
    assert !Returns(s, a, w);
    CallStep(s, a, w);
  }
}
