/** Who owns which mutex, and how far mutex_hold_count can be trusted. */
module Holding {
  import opened Collections
  import opened Words
  import opened KernelState
  import opened KernelSpec
  import opened Invariant
  import opened SchedulePreserve
  import opened Frames
  import MutexPreserve

  /** How many mutexes t owns. */
  ghost function Owned(mutexes: seq<Option<nat>>, t: nat): nat {
    if mutexes == [] then 0
    else Owned(mutexes[..|mutexes| - 1], t) + (if mutexes[|mutexes| - 1] == Some(t) then 1 else 0)
  }

  lemma {:induction false} OwnedUpdate(mutexes: seq<Option<nat>>, m: nat, o: Option<nat>, t: nat)
    requires m < |mutexes|
    ensures Owned(mutexes[m := o], t) + (if mutexes[m] == Some(t) then 1 else 0)
         == Owned(mutexes, t) + (if o == Some(t) then 1 else 0)
  {
    var n := |mutexes| - 1;
    if m == n {
      assert mutexes[m := o][..n] == mutexes[..n];
    } else {
      assert mutexes[m := o][..n] == mutexes[..n][m := o];
      OwnedUpdate(mutexes[..n], m, o, t);
    }
  }

  lemma {:induction false} OwnedNone(mutexes: seq<Option<nat>>, t: nat)
    requires forall m :: 0 <= m < |mutexes| ==> mutexes[m] != Some(t)
    ensures Owned(mutexes, t) == 0
  {
    if mutexes != [] {
      OwnedNone(mutexes[..|mutexes| - 1], t);
    }
  }

  lemma {:induction false} OwnedSome(mutexes: seq<Option<nat>>, m: nat, t: nat)
    requires m < |mutexes| && mutexes[m] == Some(t)
    ensures Owned(mutexes, t) > 0
  {
    if m < |mutexes| - 1 {
      OwnedSome(mutexes[..|mutexes| - 1], m, t);
    }
  }

  ghost predicate HoldsExact(s: State) {
    forall t :: 0 <= t < |s.tasks| ==> s.tasks[t].holds as int == Owned(s.mutexes, t)
  }

  ghost predicate Within255(s: State) {
    forall t :: 0 <= t < |s.tasks| ==> Owned(s.mutexes, t) <= 255
  }

  /** What one step from an exact state leaves: exact counts, except that 256 shows as 0. */
  ghost predicate HoldsWrapped(s: State) {
    forall t :: 0 <= t < |s.tasks| ==>
      && Owned(s.mutexes, t) <= 256
      && s.tasks[t].holds as int == if Owned(s.mutexes, t) == 256 then 0 else Owned(s.mutexes, t)
  }

  /** The test for a zero hold count says whether a task owns a mutex. */
  ghost predicate ZeroTells(s: State) {
    forall t :: 0 <= t < |s.tasks| ==> (s.tasks[t].holds == 0 <==> Owned(s.mutexes, t) == 0)
  }

  ghost predicate OwnersAlive(s: State) {
    forall m :: 0 <= m < |s.mutexes| && s.mutexes[m].Some? ==>
      s.mutexes[m].value < |s.tasks| && s.tasks[s.mutexes[m].value].state != Terminated
  }

  /** Taking m for t raises t's count and nobody else's. */
  lemma AcquireCounts(s: State, m: nat, t: nat)
    requires m < |s.mutexes| && t < |s.tasks|
    requires s.tasks[t].holds as int == Owned(s.mutexes, t) - (if s.mutexes[m] == Some(t) then 1 else 0)
    requires forall u :: 0 <= u < |s.tasks| && u != t ==>
      s.tasks[u].holds as int == Owned(s.mutexes, u) - (if s.mutexes[m] == Some(u) then 1 else 0)
    ensures HoldsWrapped(Acquire(s, m, t))
  {
    var s' := Acquire(s, m, t);
    forall u | 0 <= u < |s.tasks|
      ensures Owned(s'.mutexes, u) <= 256
      ensures s'.tasks[u].holds as int == if Owned(s'.mutexes, u) == 256 then 0 else Owned(s'.mutexes, u)
    {
      OwnedUpdate(s.mutexes, m, Some(t), u);
    }
  }

  lemma FreeCounts(s: State, m: nat)
    requires s.current < |s.tasks| && m < |s.mutexes| && s.mutexes[m] == Some(s.current) && HoldsExact(s)
    ensures HoldsExact(MutexPreserve.Freed(s, m))
  {
    OwnedSome(s.mutexes, m, s.current);
    forall u | 0 <= u < |s.tasks|
      ensures MutexPreserve.Freed(s, m).tasks[u].holds as int == Owned(s.mutexes[m := None], u)
    {
      OwnedUpdate(s.mutexes, m, None, u);
    }
  }

  ghost predicate SameHolds(s: State, s': State) {
    && |s'.tasks| == |s.tasks| && s'.mutexes == s.mutexes
    && forall t :: 0 <= t < |s.tasks| ==> s'.tasks[t].holds == s.tasks[t].holds
  }

  lemma LockCounts(s: State, ctx: Context, m: nat, timeout: Word)
    requires RunInv(s) && m < |s.mutexes| && HoldsExact(s)
    ensures HoldsWrapped(Lock(s, ctx, m, timeout).s)
  {
    if TimeoutValid(timeout) && ctx.ThreadMode? && s.mutexes[m] == None {
      AcquireCounts(s, m, s.current);
    } else {
      assert SameHolds(s, Lock(s, ctx, m, timeout).s);
    }
  }

  lemma HandOverCounts(s: State, m: nat, w: nat)
    requires MutexPreserve.MayHandOver(s, m, w) && HoldsExact(s)
    ensures HoldsWrapped(MutexPreserve.HandedOver(s, m, w))
  {
    OwnedSome(s.mutexes, m, s.current);
    assert MutexPreserve.HandedOver(s, m, w).mutexes == Acquire(Release(s), m, w).mutexes;
    AcquireCounts(Release(s), m, w);
  }

  lemma UnlockCounts(s: State, ctx: Context, m: nat)
    requires RunInv(s) && m < |s.mutexes| && HoldsExact(s) && (ctx.ThreadMode? ==> ThreadMayCall(s))
    ensures HoldsWrapped(Unlock(s, ctx, m).s)
  {
    if ctx.ThreadMode? && s.mutexes[m] == Some(s.current) {
      MutexPreserve.UnlockCases(s, m);
      var found := FindWaiter(Release(s), WaitMutex, m);
      if found.Some? {
        HandOverCounts(s, m, found.value);
      } else {
        FreeCounts(s, m);
      }
    }
  }

  lemma SemaphoreHolds(s: State, ctx: Context, i: nat, timeout: Word)
    requires s.current < |s.tasks| && i < |s.sems|
    ensures SameHolds(s, Take(s, ctx, i, timeout).s) && SameHolds(s, GiveCommon(s, i).s)
  {
  }

  lemma SendHolds(s: State, ctx: Context, q: nat, item: Item, timeout: Word)
    requires s.current < |s.tasks| && q < |s.queues|
    ensures SameHolds(s, SendCommon(s, q, item).s) && SameHolds(s, Send(s, ctx, q, item, timeout).s)
  {
    SendCommonFrames(s, q, item);
  }

  lemma ReceiveHolds(s: State, ctx: Context, q: nat, timeout: Word)
    requires s.current < |s.tasks| && q < |s.queues|
    ensures SameHolds(s, ReceiveCommon(s, q).s) && SameHolds(s, Receive(s, ctx, q, timeout).s)
  {
    ReceiveCommonFrames(s, q);
  }

  lemma PerformCounts(s: State, ctx: Context, api: Api)
    requires RunInv(s) && ArgumentsExist(s, api) && (ctx.ThreadMode? ==> ThreadMayCall(s))
    requires HoldsExact(s)
    ensures HoldsWrapped(Perform(s, ctx, api).s)
  {
    hide Take, GiveCommon, Lock, Unlock, SendCommon, Send, ReceiveCommon, Receive;
    match api
    case TakeCall(i, timeout) => SemaphoreHolds(s, ctx, i, timeout);
    case GiveCall(i) => SemaphoreHolds(s, ctx, i, 0);
    case GiveFromIsrCall(i) => SemaphoreHolds(s, ctx, i, 0);
    case LockCall(m, timeout) => LockCounts(s, ctx, m, timeout);
    case UnlockCall(m) => UnlockCounts(s, ctx, m);
    case SendCall(q, item, timeout) => SendHolds(s, ctx, q, item, timeout);
    case ReceiveCall(q, timeout) => ReceiveHolds(s, ctx, q, timeout);
    case SendFromIsrCall(q, item) => SendHolds(s, ctx, q, item, 0);
    case ReceiveFromIsrCall(q) => ReceiveHolds(s, ctx, q, 0);
    case DelayCall(ticks) =>
  }

  lemma ScheduleHolds(s: State, ok: bool)
    requires RunInv(s)
    ensures SameHolds(s, Schedule(s, ok))
  {
    PreemptedKeepsWellFormed(s);
    hide RunInv;
  }

  lemma OtherStepsHolds(s: State, a: Action)
    requires RunInv(s) && Enabled(s, a) && !a.Invoke?
    ensures SameHolds(s, Apply(s, a))
  {
    match a
    case TickInterrupt =>
    case PendSV(ok) => ScheduleHolds(s, ok);
    case _ =>
  }

  lemma StepCounts(s: State, a: Action)
    requires RunInv(s) && Enabled(s, a) && HoldsExact(s)
    ensures HoldsWrapped(Apply(s, a))
  {
    if a.Invoke? {
      PerformCounts(s, a.ctx, a.api);
    } else {
      OtherStepsHolds(s, a);
    }
  }

  // ----- owners are alive -----

  lemma PerformOwners(s: State, ctx: Context, api: Api)
    requires RunInv(s) && ArgumentsExist(s, api) && (ctx.ThreadMode? ==> ThreadMayCall(s)) && OwnersAlive(s)
    ensures OwnersAlive(Perform(s, ctx, api).s)
  {
    match api
    case TakeCall(i, timeout) => SemaphoreOwners(s, ctx, i, timeout);
    case GiveCall(i) => SemaphoreOwners(s, ctx, i, 0);
    case GiveFromIsrCall(i) => SemaphoreOwners(s, ctx, i, 0);
    case LockCall(m, timeout) => LockOwners(s, ctx, m, timeout);
    case UnlockCall(m) => UnlockOwners(s, ctx, m);
    case SendCall(q, item, timeout) => SendOwners(s, ctx, q, item, timeout);
    case ReceiveCall(q, timeout) => ReceiveOwners(s, ctx, q, timeout);
    case SendFromIsrCall(q, item) => SendOwners(s, ThreadMode, q, item, 0);
    case ReceiveFromIsrCall(q) => ReceiveOwners(s, ThreadMode, q, 0);
    case DelayCall(ticks) =>
  }

  lemma SemaphoreOwners(s: State, ctx: Context, i: nat, timeout: Word)
    requires s.current < |s.tasks| && i < |s.sems| && OwnersAlive(s)
    ensures OwnersAlive(Take(s, ctx, i, timeout).s) && OwnersAlive(GiveCommon(s, i).s)
  {
  }

  lemma LockOwners(s: State, ctx: Context, m: nat, timeout: Word)
    requires RunInv(s) && m < |s.mutexes| && (ctx.ThreadMode? ==> ThreadMayCall(s)) && OwnersAlive(s)
    ensures OwnersAlive(Lock(s, ctx, m, timeout).s)
  {
  }

  lemma UnlockOwners(s: State, ctx: Context, m: nat)
    requires RunInv(s) && m < |s.mutexes| && (ctx.ThreadMode? ==> ThreadMayCall(s)) && OwnersAlive(s)
    ensures OwnersAlive(Unlock(s, ctx, m).s)
  {
    if ctx.ThreadMode? && s.mutexes[m] == Some(s.current) {
      MutexPreserve.UnlockCases(s, m);
    }
  }

  lemma TickOwners(s: State)
    requires OwnersAlive(s)
    ensures OwnersAlive(Tick(s))
  {
    MutexPreserve.TickShape(s);
  }

  lemma SwitchOwners(s: State, ok: bool)
    requires RunInv(s) && OwnersAlive(s)
    ensures OwnersAlive(Schedule(s, ok))
  {
    PreemptedKeepsWellFormed(s);
  }

  lemma SendOwners(s: State, ctx: Context, q: nat, item: Item, timeout: Word)
    requires s.current < |s.tasks| && q < |s.queues| && OwnersAlive(s)
    ensures OwnersAlive(SendCommon(s, q, item).s) && OwnersAlive(Send(s, ctx, q, item, timeout).s)
  {
    SendCommonFrames(s, q, item);
  }

  lemma ReceiveOwners(s: State, ctx: Context, q: nat, timeout: Word)
    requires s.current < |s.tasks| && q < |s.queues| && OwnersAlive(s)
    ensures OwnersAlive(ReceiveCommon(s, q).s) && OwnersAlive(Receive(s, ctx, q, timeout).s)
  {
    ReceiveCommonFrames(s, q);
  }

  lemma TerminateOwners(s: State)
    requires RunInv(s) && HoldsExact(s) && OwnersAlive(s)
    ensures OwnersAlive(Terminate(s))
  {
    forall m | 0 <= m < |s.mutexes| && s.mutexes[m] == Some(s.current)
      ensures s.tasks[s.current].holds != 0
    {
      OwnedSome(s.mutexes, m, s.current);
    }
  }

  lemma StepOwners(s: State, a: Action)
    requires RunInv(s) && Enabled(s, a) && HoldsExact(s) && OwnersAlive(s)
    ensures OwnersAlive(Apply(s, a))
  {
    match a
    case Invoke(ctx, api) => PerformOwners(s, ctx, api);
    case ReturnFromWait =>
    case TaskReturns => TerminateOwners(s);
    case TickInterrupt => TickOwners(s);
    case PendSV(ok) => SwitchOwners(s, ok);
  }

  lemma InitialCounts(s: State)
    requires Initial(s)
    ensures HoldsExact(s) && OwnersAlive(s)
  {
    var b :| Booted(b) && s == Start(b);
    assert Runnable(b.tasks[0]);
    forall t | 0 <= t < |s.tasks| ensures s.tasks[t].holds as int == Owned(s.mutexes, t) {
      assert FreshTcb(b.tasks[t]);
      OwnedNone(s.mutexes, t);
    }
  }

  lemma {:induction false} CountsWhileWithin(states: seq<State>, actions: seq<Action>, k: nat)
    requires IsRun(states, actions) && k < |states|
    requires forall j :: 0 <= j <= k ==> Within255(states[j])
    ensures HoldsExact(states[k]) && OwnersAlive(states[k])
  {
    hide IsRun, Enabled, Apply, RunInv, TimeInv, HoldsExact, OwnersAlive, Within255, Initial;
    RunLength(states, actions);
    if k == 0 {
      RunStarts(states, actions);
      InitialCounts(states[0]);
    } else {
      CountsWhileWithin(states, actions, k - 1);
      RunStep(states, actions, k - 1);
      StepBoth(states[k - 1], actions[k - 1], states[k]);
    }
  }

  lemma StepBoth(s: State, a: Action, s': State)
    requires RunInv(s) && Enabled(s, a) && s' == Apply(s, a)
    requires HoldsExact(s) && OwnersAlive(s) && Within255(s')
    ensures HoldsExact(s') && OwnersAlive(s')
  {
    StepCounts(s, a);
    StepOwners(s, a);
  }

  /** Over any run, mutex_hold_count is the number of mutexes owned, for every task and in every
      state, exactly if no task ever owns more than 255 of them. */
  lemma HoldCountsExact(states: seq<State>, actions: seq<Action>)
    requires IsRun(states, actions)
    ensures (forall k :: 0 <= k < |states| ==> HoldsExact(states[k]))
       <==> (forall k :: 0 <= k < |states| ==> Within255(states[k]))
  {
    if forall k :: 0 <= k < |states| ==> Within255(states[k]) {
      forall k | 0 <= k < |states| ensures HoldsExact(states[k]) {
        CountsWhileWithin(states, actions, k);
      }
    }
  }

  lemma StepOverflows(s: State, a: Action, s': State)
    requires RunInv(s) && Enabled(s, a) && s' == Apply(s, a) && HoldsExact(s)
    ensures !Within255(s') ==> !ZeroTells(s')
  {
    StepCounts(s, a);
  }

  /** In the first state in which a task owns more than 255 mutexes its count is zero. */
  lemma {:induction false} ZeroTellsKeepsWithin(states: seq<State>, actions: seq<Action>, k: nat)
    requires IsRun(states, actions) && k < |states|
    requires forall j :: 0 <= j <= k ==> ZeroTells(states[j])
    ensures forall j :: 0 <= j <= k ==> Within255(states[j])
  {
    hide IsRun, Enabled, Apply, RunInv, TimeInv, HoldsExact, OwnersAlive, Within255, ZeroTells, Initial;
    RunLength(states, actions);
    if k == 0 {
      RunStarts(states, actions);
      InitialCounts(states[0]);
      ExactIsWithin(states[0]);
    } else {
      ZeroTellsKeepsWithin(states, actions, k - 1);
      CountsWhileWithin(states, actions, k - 1);
      RunStep(states, actions, k - 1);
      StepOverflows(states[k - 1], actions[k - 1], states[k]);
    }
  }

  lemma ExactIsWithin(s: State)
    requires HoldsExact(s)
    ensures Within255(s) && ZeroTells(s)
  {
  }

  /** Over any run: in every state, for every task, the hold count is zero exactly if the task
      owns nothing, so that a returning task is judged rightly, exactly if no task ever owns more
      than 255 mutexes. */
  lemma ReturnCheckExact(states: seq<State>, actions: seq<Action>)
    requires IsRun(states, actions)
    ensures (forall k :: 0 <= k < |states| ==> ZeroTells(states[k]))
       <==> (forall k :: 0 <= k < |states| ==> Within255(states[k]))
  {
    if forall k :: 0 <= k < |states| ==> ZeroTells(states[k]) {
      ZeroTellsKeepsWithin(states, actions, |states| - 1);
    }
    if forall k :: 0 <= k < |states| ==> Within255(states[k]) {
      forall k | 0 <= k < |states| ensures ZeroTells(states[k]) {
        CountsWhileWithin(states, actions, k);
        ExactIsWithin(states[k]);
      }
    }
  }

  /** While no task owns more than 255 mutexes, a terminated task owns none. */
  lemma TerminatedOwnNothing(states: seq<State>, actions: seq<Action>, k: nat, t: nat, m: nat)
    requires IsRun(states, actions) && k < |states|
    requires forall j :: 0 <= j <= k ==> Within255(states[j])
    requires t < |states[k].tasks| && states[k].tasks[t].state == Terminated && m < |states[k].mutexes|
    ensures states[k].mutexes[m] != Some(t)
  {
    CountsWhileWithin(states, actions, k);
  }

  // ----- beyond 255 -----

  /** Idle and one task of priority 1, with 256 mutexes. */
  ghost function ManyMutexes(): State {
    var idle := Tcb(Ready, 0, 0, WaitNone, None, [], 0, false, 0, Ok, 0, Past(0, 0, None, 0, 0, 0, false));
    State([idle, idle.(base := 1, eff := 1)], [], seq(256, i => None), [], 0, [0, 0], 0, 0,
          false, FaultNone, 0, 0)
  }

  /** The task runs and has locked the first k mutexes. */
  ghost function Locked(k: nat): State
    requires k <= 256
  {
    var b := ManyMutexes();
    b.(tasks := b.tasks[1 := b.tasks[1].(state := Running, holds := (k % 256) as Byte)],
       mutexes := seq(256, i => if i < k then Some(1) else None), cursor := [0, 1], current := 1)
  }

  lemma LockedStart()
    ensures Initial(Locked(0))
  {
    var b := ManyMutexes();
    assert Runnable(b.tasks[1]);
    assert Booted(b);
    assert IsSelected(b, 1);
    SelectedUnique(b, 1, Selected(b));
    assert Start(b).mutexes == Locked(0).mutexes;
    assert Start(b) == Locked(0);
  }

  lemma LockedNext(k: nat)
    requires k < 256
    ensures Enabled(Locked(k), Invoke(ThreadMode, LockCall(k, 0)))
    ensures Apply(Locked(k), Invoke(ThreadMode, LockCall(k, 0))) == Locked(k + 1)
  {
    assert Locked(k).mutexes[k := Some(1)] == Locked(k + 1).mutexes;
  }

  lemma LockedReturns()
    ensures Enabled(Locked(256), TaskReturns) && Apply(Locked(256), TaskReturns) == Terminate(Locked(256))
    ensures var s := Terminate(Locked(256));
      && |s.tasks| == 2 && s.tasks[1].state == Terminated && s.fault == FaultNone
      && |s.mutexes| == 256 && forall m :: 0 <= m < 256 ==> s.mutexes[m] == Some(1)
  {
  }

  /** A run in which a task locks 256 mutexes, returns, and is terminated without a fault while
      it owns all of them: its uint8_t hold count has wrapped to zero. */
  lemma HoldCountCanWrap() returns (states: seq<State>, actions: seq<Action>)
    ensures IsRun(states, actions)
    ensures var s := states[|states| - 1];
      && |s.tasks| == 2 && s.tasks[1].state == Terminated && s.fault == FaultNone
      && |s.mutexes| == 256 && forall m :: 0 <= m < 256 ==> s.mutexes[m] == Some(1)
  {
    LockedReturns();
    hide Enabled, Apply, Initial, Terminate;
    var locks := seq(257, k requires 0 <= k < 257 => Locked(k));
    states := locks + [Terminate(Locked(256))];
    actions := seq(256, (k: nat) => Invoke(ThreadMode, LockCall(k, 0))) + [TaskReturns];
    LockedStart();
    forall k | 0 <= k < |actions|
      ensures Enabled(states[k], actions[k]) && states[k + 1] == Apply(states[k], actions[k])
    {
      if k < 256 {
        LockedNext(k);
      } else {
        assert states[k] == Locked(256);
      }
    }
  }
}
