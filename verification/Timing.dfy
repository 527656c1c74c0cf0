/** Delays and timeouts are exact in unbounded time, however often the 32-bit counter wraps. */
module Timing {
  import opened Collections
  import opened Words
  import opened KernelState
  import opened KernelSpec
  import opened Invariant
  import opened Frames

  /** A timed wait with true deadline d ends in one of two ways: granted before tick d, or
      at the very tick that reaches d. Until it ends the task stays as it is, and tick d cannot
      pass while it waits. */
  ghost predicate WaitOutcome(s0: State, s1: State, last: Option<Action>, t: nat)
    requires t < |s0.tasks|
  {
    && t < |s1.tasks|
    && var k0, k1, d := s0.tasks[t], s1.tasks[t], s0.tasks[t].past.deadline;
       if Waiting(k1) then
         SameUpToEff(k0, k1) && s1.now < d
       else if s1.now < d then
         GrantedTo(k0, k1)
       else
         && s1.now == d && last == Some(TickInterrupt)
         && (if k0.state == Delayed then k1.state == Ready else TimedOut(k0, k1))
  }

  lemma {:induction false} WaitEndsOnTime(states: seq<State>, actions: seq<Action>, i: nat, j: nat, t: nat)
    requires IsRun(states, actions) && i <= j < |states|
    requires t < |states[i].tasks| && Timed(states[i].tasks[t])
    requires forall k :: i <= k < j ==> t < |states[k].tasks| && Waiting(states[k].tasks[t])
    ensures WaitOutcome(states[i], states[j], if i < j then Some(actions[j - 1]) else None, t)
  {
    hide IsRun, Enabled, Apply, RunInv;
    RunLength(states, actions);
    if i == j {
      RunBasics(states, actions, i);
      assert TimeOk(states[i].tasks[t], states[i].now);
    } else {
      WaitEndsOnTime(states, actions, i, j - 1, t);
      RunStep(states, actions, j - 1);
      WaitStep(states[i], states[j - 1], actions[j - 1], t);
    }
  }

  lemma WaitStep(s0: State, s: State, a: Action, t: nat)
    requires RunInv(s) && TimeInv(s) && Enabled(s, a)
    requires t < |s0.tasks| && t < |s.tasks| && Timed(s0.tasks[t]) && Waiting(s.tasks[t])
    requires SameUpToEff(s0.tasks[t], s.tasks[t]) && s.now < s0.tasks[t].past.deadline
    ensures WaitOutcome(s0, Apply(s, a), Some(a), t)
  {
    if a == TickInterrupt {
      TickFrames(s, t);
      assert TimeOk(s.tasks[t], s.now);
    } else {
      StepFrames(s, a);
    }
  }

  // ----- where timed waits come from -----

  function TimeoutOf(api: Api): Word {
    match api
    case TakeCall(_, timeout) => timeout
    case LockCall(_, timeout) => timeout
    case SendCall(_, _, timeout) => timeout
    case ReceiveCall(_, timeout) => timeout
    case DelayCall(ticks) => ticks
    case _ => 0
  }

  /** A call that blocks for a finite time sets the true deadline that many ticks ahead. */
  lemma BlockingSetsDeadline(s: State, api: Api)
    requires Enabled(s, Invoke(ThreadMode, api)) && Perform(s, ThreadMode, api).reply.Suspended?
    ensures var s' := Apply(s, Invoke(ThreadMode, api));
      && |s'.tasks| == |s.tasks| && s'.now == s.now && s'.tasks[s.current].state == Blocked
      && 0 < TimeoutOf(api) && TimeoutValid(TimeoutOf(api))
      && (s'.tasks[s.current].waitForever <==> TimeoutOf(api) == WAIT_FOREVER)
      && (TimeoutOf(api) != WAIT_FOREVER ==> s'.tasks[s.current].past.deadline == s.now + TimeoutOf(api))
  {
  }

  /** A delay of d ticks, 1 <= d <= 2^31 - 1, that starts at tick T lasts exactly until tick T + d. */
  lemma DelayIsExact(states: seq<State>, actions: seq<Action>, i: nat, j: nat, d: Word)
    requires IsRun(states, actions) && i < j < |states| && 0 < d < TWO31
    requires actions[i] == Invoke(ThreadMode, DelayCall(d))
    requires forall k :: i < k < j ==>
      states[i].current < |states[k].tasks| && states[k].tasks[states[i].current].state == Delayed
    ensures states[i].current < |states[j].tasks|
    ensures var k := states[j].tasks[states[i].current];
      if k.state == Delayed then states[j].now < states[i].now + d
      else states[j].now == states[i].now + d && actions[j - 1] == TickInterrupt && k.state == Ready
  {
    var t := states[i].current;
    RunBasics(states, actions, i);
    assert Enabled(states[i], actions[i]) && states[i + 1] == Apply(states[i], actions[i]);
    assert states[i + 1].tasks[t].state == Delayed && states[i + 1].tasks[t].past.deadline == states[i].now + d;
    WaitEndsOnTime(states, actions, i + 1, j, t);
  }

  /** A call that blocks with a finite timeout d at tick T is granted before tick T + d or times
      out at the very tick T + d. */
  lemma TimeoutIsExact(states: seq<State>, actions: seq<Action>, i: nat, j: nat, api: Api)
    requires IsRun(states, actions) && i < j < |states|
    requires actions[i] == Invoke(ThreadMode, api) && Enabled(states[i], actions[i])
    requires Perform(states[i], ThreadMode, api).reply.Suspended? && TimeoutOf(api) != WAIT_FOREVER
    requires forall k :: i < k < j ==>
      states[i].current < |states[k].tasks| && states[k].tasks[states[i].current].state == Blocked
    ensures states[i].current < |states[j].tasks|
    ensures var k, deadline := states[j].tasks[states[i].current], states[i].now + TimeoutOf(api);
      if k.state == Blocked then states[j].now < deadline
      else if k.past.granted then states[j].now < deadline && k.state == Ready && k.waitResult == Ok
      else
        && states[j].now == deadline && actions[j - 1] == TickInterrupt
        && k.state == Ready && k.waitResult == ErrTimeout
  {
    var t := states[i].current;
    BlockingSetsDeadline(states[i], api);
    assert states[i + 1] == Apply(states[i], actions[i]);
    WaitEndsOnTime(states, actions, i + 1, j, t);
  }

  /** A task that waits forever is never timed out. */
  lemma {:induction false} ForeverIsForever(states: seq<State>, actions: seq<Action>, i: nat, j: nat, t: nat)
    requires IsRun(states, actions) && i <= j < |states|
    requires t < |states[i].tasks| && states[i].tasks[t].state == Blocked && states[i].tasks[t].waitForever
    requires forall k :: i <= k < j ==> t < |states[k].tasks| && states[k].tasks[t].state == Blocked
    ensures t < |states[j].tasks|
    ensures SameUpToEff(states[i].tasks[t], states[j].tasks[t]) || GrantedTo(states[i].tasks[t], states[j].tasks[t])
  {
    hide IsRun, Enabled, Apply, RunInv, TimeInv;
    RunLength(states, actions);
    if i < j {
      ForeverIsForever(states, actions, i, j - 1, t);
      RunStep(states, actions, j - 1);
      ForeverStep(states[j - 1], actions[j - 1], t);
    }
  }

  lemma ForeverStep(s: State, a: Action, t: nat)
    requires RunInv(s) && TimeInv(s) && Enabled(s, a) && t < |s.tasks|
    requires s.tasks[t].state == Blocked && s.tasks[t].waitForever
    ensures var s' := Apply(s, a);
      t < |s'.tasks| && (SameUpToEff(s.tasks[t], s'.tasks[t]) || GrantedTo(s.tasks[t], s'.tasks[t]))
  {
    if a == TickInterrupt {
      TickFrames(s, t);
    } else {
      StepFrames(s, a);
    }
  }
}
