/** Delays, terminations, context switches and returns keep the invariant; so does every step. */
module SchedulePreserve {
  import opened Collections
  import opened Words
  import opened Inheritance
  import opened KernelState
  import opened KernelSpec
  import opened Invariant
  import opened Preservation
  import CallsPreserve
  import MutexPreserve

  // ----- steps that change one unblocked task in place -----

  /** Task t changes from one unblocked control block to another; nothing else but the switch
      request, the cursor and the current task may. */
  ghost predicate OneTaskStep(s: State, s': State, t: nat) {
    && s' == s.(tasks := s'.tasks, pending := s'.pending, cursor := s'.cursor, current := s'.current)
    && |s'.tasks| == |s.tasks| && t < |s.tasks| && s'.tasks == s.tasks[t := s'.tasks[t]]
    && s.tasks[t].state != Blocked && s'.tasks[t].state != Blocked
    && s'.tasks[t].waitType == s.tasks[t].waitType && s'.tasks[t].waitObject == s.tasks[t].waitObject
    && s'.tasks[t].base == s.tasks[t].base && s'.tasks[t].eff == s.tasks[t].eff
    && s'.tasks[t].buffer == s.tasks[t].buffer
    && (s'.tasks[t].past.call == None || s'.tasks[t].past.call == s.tasks[t].past.call)
    && s'.tasks[t].past.granted == s.tasks[t].past.granted
  }

  lemma OneTaskWaiters(s: State, s': State, t: nat)
    requires OneTaskStep(s, s', t)
    ensures forall u, x, y :: 0 <= u < |s.tasks| ==> Waits(s', u, x, y) == Waits(s, u, x, y)
    ensures forall u, x, y :: 0 <= u < |s.tasks| && Ended(s'.tasks[u], x, y) ==> Ended(s.tasks[u], x, y)
  {
  }

  lemma OneTaskObjects(s: State, s': State, t: nat)
    requires OneTaskStep(s, s', t) && MutexInv(s) && SemInv(s) && QueueInv(s)
    ensures MutexInv(s') && SemInv(s') && QueueInv(s')
  {
    OneTaskWaiters(s, s', t);
  }

  lemma OneTaskCalls(s: State, s': State, t: nat)
    requires OneTaskStep(s, s', t) && GrantInv(s) && ItemInv(s)
    ensures GrantInv(s') && ItemInv(s')
  {
    OneTaskWaiters(s, s', t);
    forall u, q | 0 <= u < |s.tasks| && 0 <= q < |s.queues| && Ended(s'.tasks[u], WaitQueueReceive, q)
      ensures ReceivedOk(s'.tasks[u], s'.queues[q])
    {
      assert ReceivedOk(s.tasks[u], s.queues[q]);
    }
  }

  lemma OneTaskTime(s: State, s': State, t: nat)
    requires OneTaskStep(s, s', t) && WaitInv(s) && TimeInv(s) && OrderInv(s) && CallInv(s)
    requires TimeOk(s'.tasks[t], s.now) && CallOk(s'.tasks[t])
    ensures WaitInv(s') && TimeInv(s') && OrderInv(s') && CallInv(s')
  {
  }

  lemma OneTaskInv(s: State, s': State, t: nat)
    requires Inv(s) && OneTaskStep(s, s', t) && RunInv(s') && SchedInv(s')
    requires TimeOk(s'.tasks[t], s.now) && CallOk(s'.tasks[t])
    ensures Inv(s')
  {
    OneTaskObjects(s, s', t);
    OneTaskCalls(s, s', t);
    OneTaskTime(s, s', t);
    SameGraphSamePriorities(s, s');
  }

  lemma DelaysRun(s: State, s': State)
    requires RunInv(s) && s.current != 0 && OneTaskStep(s, s', s.current)
    requires s' == s.(tasks := s'.tasks, pending := true) && s'.tasks[s.current].state in {Delayed, Terminated}
    ensures RunInv(s')
  {
  }

  lemma DelayOnTime(s: State, ticks: Word)
    requires TimeInv(s) && CallInv(s) && s.current < |s.tasks|
    requires s.tasks[s.current].state == Running && s.tasks[s.current].past.call == None
    requires 0 < ticks < TWO31
    ensures var k := Delay(s, ThreadMode, ticks).s.tasks[s.current]; TimeOk(k, s.now) && CallOk(k)
  {
    WrapSum(s.now, ticks);
    assert CallOk(s.tasks[s.current]);
  }

  lemma DelayStarts(s: State, ticks: Word)
    requires Inv(s) && ThreadMayCall(s) && 0 < ticks < TWO31
    ensures Inv(Delay(s, ThreadMode, ticks).s)
  {
    var s' := Delay(s, ThreadMode, ticks).s;
    DelayOnTime(s, ticks);
    DelaysRun(s, s');
    OneTaskInv(s, s', s.current);
  }

  lemma DelayKeeps(s: State, ctx: Context, ticks: Word)
    requires Inv(s) && (ctx.ThreadMode? ==> ThreadMayCall(s))
    ensures Inv(Delay(s, ctx, ticks).s)
  {
    if ticks == 0 {
      RequestKeepsInv(s, s.(pending := s.pending || ctx.ThreadMode?));
    } else if ctx.ThreadMode? && TimeoutValid(ticks) && ticks != WAIT_FOREVER {
      DelayStarts(s, ticks);
    }
  }

  lemma TerminateKeeps(s: State)
    requires Inv(s) && ThreadMayCall(s)
    ensures Inv(Terminate(s))
  {
    var s' := Terminate(s);
    if s.tasks[s.current].holds != 0 {
      FaultKeeps(s, s', FaultTaskReturnWithMutex);
    } else {
      DelaysRun(s, s');
      OneTaskInv(s, s', s.current);
    }
  }

  /** Recording a fault leaves the state as it was. */
  lemma FaultKeeps(s: State, s': State, fault: Fault)
    requires Inv(s) && fault != FaultKernelInvariant
    requires s' == s.(fault := fault)
    ensures Inv(s')
  {
    SameObjects(s, s');
    ObjectStep(s, s');
  }

  lemma ResumeKeeps(s: State)
    requires Inv(s) && !s.pending && s.tasks[s.current].past.call.Some?
    ensures Inv(Resume(s).s)
  {
    var s' := Resume(s).s;
    assert TimeOk(s.tasks[s.current], s.now) && CallOk(s.tasks[s.current]);
    ResumeRuns(s);
    OneTaskInv(s, s', s.current);
  }

  lemma ResumeRuns(s: State)
    requires RunInv(s) && SchedInv(s) && !s.pending
    ensures RunInv(Resume(s).s) && SchedInv(Resume(s).s)
  {
    var s' := Resume(s).s;
    assert forall wt, o :: ObjectExists(s', wt, o) == ObjectExists(s, wt, o);
    SameReadySameSchedule(s, s');
  }

  // ----- the context switch -----

  lemma PreemptedKeepsWellFormed(s: State)
    requires RunInv(s)
    ensures WellFormed(Preempted(s)) && AnyRunnable(Preempted(s))
  {
    var p := Preempted(s);
    assert forall wt, o :: ObjectExists(p, wt, o) == ObjectExists(s, wt, o);
    assert Runnable(p.tasks[0]);
  }

  /** The task switched out becomes READY unless it has stopped running. */
  lemma SwitchOut(s: State)
    requires Inv(s) && s.pending
    ensures Inv(Preempted(s))
  {
    var p := Preempted(s);
    PreemptedKeepsWellFormed(s);
    if s.tasks[s.current].state == Running {
      assert TimeOk(s.tasks[s.current], s.now) && CallOk(s.tasks[s.current]);
      OneTaskInv(s, p, s.current);
    } else {
      assert p.tasks == s.tasks;
    }
  }

  lemma SwitchInRuns(p: State, i: nat)
    requires RunInv(p) && IsSelected(p, i)
    requires forall t :: 0 <= t < |p.tasks| ==> p.tasks[t].state != Running
    ensures RunInv(Dispatch(p, i)) && SchedInv(Dispatch(p, i))
  {
    var s' := Dispatch(p, i);
    assert forall wt, o :: ObjectExists(s', wt, o) == ObjectExists(p, wt, o);
  }

  /** The selected task runs. */
  lemma SwitchIn(p: State, i: nat)
    requires Inv(p) && IsSelected(p, i)
    requires forall t :: 0 <= t < |p.tasks| ==> p.tasks[t].state != Running
    ensures Inv(Dispatch(p, i))
  {
    SwitchInRuns(p, i);
    assert TimeOk(p.tasks[i], p.now) && CallOk(p.tasks[i]);
    OneTaskInv(p, Dispatch(p, i), i);
  }

  lemma ScheduleKeeps(s: State, stackValid: bool)
    requires Inv(s) && s.pending
    ensures Inv(Schedule(s, stackValid))
    ensures stackValid ==> Schedule(s, stackValid).fault == s.fault
  {
    if stackValid {
      PreemptedKeepsWellFormed(s);
      SwitchOut(s);
      SwitchIn(Preempted(s), Selected(Preempted(s)));
    } else {
      FaultKeeps(s, Schedule(s, stackValid), FaultStack);
    }
  }

  lemma SelectedTransfers(p: State, p': State, i: nat)
    requires WellFormed(p) && WellFormed(p') && IsSelected(p, i)
    requires p'.tasks == p.tasks && p'.cursor == p.cursor
    ensures IsSelected(p', i)
  {
  }

  // ----- the first task, and every step -----

  lemma NoEdges(s: State)
    requires forall t :: 0 <= t < |s.tasks| ==> s.tasks[t].state != Blocked && s.tasks[t].eff == s.tasks[t].base
    ensures EffInv(s)
  {
    forall t | 0 <= t < |s.tasks| ensures InheritedAll(Bases(s), Edges(s))[t] == s.tasks[t].base {
      var u := InheritedAttained(Bases(s), Edges(s), t);
      var k: nat :| Follow(Edges(s), u, k) == Some(t);
      NoEdgesNoPaths(Edges(s), u, k, t);
    }
  }

  lemma {:induction false} NoEdgesNoPaths(next: seq<Option<nat>>, u: nat, k: nat, t: nat)
    requires forall v :: 0 <= v < |next| ==> next[v] == None
    requires Follow(next, u, k) == Some(t)
    ensures t == u
  {
  }

  lemma BootedBooks(b: State)
    requires Booted(b)
    ensures Inv(b.(pending := true))
  {
    var p := b.(pending := true);
    assert forall wt, o :: ObjectExists(p, wt, o) == ObjectExists(b, wt, o);
    assert forall t :: 0 <= t < |p.tasks| ==> FreshTcb(p.tasks[t]);
    NoEdges(p);
  }

  lemma InitialInv(s: State)
    requires Initial(s)
    ensures Inv(s)
  {
    var b :| Booted(b) && s == Start(b);
    var p := b.(pending := true);
    BootedBooks(b);
    assert forall t :: 0 <= t < |p.tasks| ==> FreshTcb(b.tasks[t]);
    assert Runnable(b.tasks[0]);
    SelectedTransfers(b, p, Selected(b));
    SwitchIn(p, Selected(b));
    assert Dispatch(p, Selected(b)) == s;
  }

  lemma PerformKeeps(s: State, ctx: Context, api: Api)
    requires Inv(s) && ArgumentsExist(s, api) && (ctx.ThreadMode? ==> ThreadMayCall(s))
    ensures Inv(Perform(s, ctx, api).s)
  {
    hide Inv;
    match api
    case TakeCall(i, timeout) => CallsPreserve.TakeKeeps(s, ctx, i, timeout);
    case GiveCall(i) => CallsPreserve.GiveKeeps(s, i);
    case GiveFromIsrCall(i) => CallsPreserve.GiveKeeps(s, i);
    case LockCall(m, timeout) => MutexPreserve.LockKeeps(s, ctx, m, timeout);
    case UnlockCall(m) => MutexPreserve.UnlockKeeps(s, ctx, m);
    case SendCall(q, item, timeout) => CallsPreserve.SendKeeps(s, ctx, q, item, timeout);
    case ReceiveCall(q, timeout) => CallsPreserve.ReceiveKeeps(s, ctx, q, timeout);
    case SendFromIsrCall(q, item) => CallsPreserve.SendCommonKeeps(s, q, item);
    case ReceiveFromIsrCall(q) => CallsPreserve.ReceiveCommonKeeps(s, q);
    case DelayCall(ticks) => DelayKeeps(s, ctx, ticks);
  }

  /** Every enabled step keeps the invariant. */
  lemma StepKeeps(s: State, a: Action)
    requires Inv(s) && Enabled(s, a)
    ensures Inv(Apply(s, a))
  {
    hide Inv;
    match a
    case Invoke(ctx, api) => PerformKeeps(s, ctx, api);
    case ReturnFromWait => ResumeKeeps(s);
    case TaskReturns => TerminateKeeps(s);
    case TickInterrupt => MutexPreserve.TickKeeps(s);
    case PendSV(ok) => ScheduleKeeps(s, ok);
  }

  /** Every state of every run satisfies the invariant. */
  lemma {:induction false} RunKeeps(states: seq<State>, actions: seq<Action>, k: nat)
    requires IsRun(states, actions) && k < |states|
    ensures Inv(states[k])
  {
    if k == 0 {
      InitialInv(states[0]);
    } else {
      RunKeeps(states, actions, k - 1);
      StepKeeps(states[k - 1], actions[k - 1]);
    }
  }
}
