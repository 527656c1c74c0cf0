/** What the status of a call tells its caller. */
module CallResults {
  import opened Collections
  import opened KernelState
  import opened KernelSpec
  import opened Invariant
  import opened SchedulePreserve
  import opened Frames

  /** When a blocked call finally returns, its status is Ok if the wait was granted and
      ErrTimeout if it timed out. For a lock, Ok says exactly that the caller owns the mutex;
      for a receive, Ok comes with an item the queue delivered, ErrTimeout with none. */
  lemma ReturnTellsOutcome(states: seq<State>, actions: seq<Action>, k: nat)
    requires IsRun(states, actions) && k < |actions| && actions[k] == ReturnFromWait
    ensures states[k].current < |states[k].tasks| && states[k].tasks[states[k].current].past.call.Some?
    ensures var s, t := states[k], states[k].current;
      var c, r := s.tasks[t].past.call.value, Resume(s).reply;
      && s.tasks[t].state == Running
      && r.status == (if s.tasks[t].past.granted then Ok else ErrTimeout)
      && ObjectExists(s, c.waitType, c.on)
      && (c.waitType == WaitMutex ==> (r.status == Ok <==> s.mutexes[c.on] == Some(t)))
      && (c.waitType == WaitQueueReceive ==>
            if r.status == Ok then r.item in s.queues[c.on].delivered else r.item == [])
  {
    RunKeeps(states, actions, k);
    var s, t := states[k], states[k].current;
    var c := s.tasks[t].past.call.value;
    assert CallOk(s.tasks[t]) && CallOnObject(s, s.tasks[t]);
    if c.waitType == WaitQueueReceive {
      assert Ended(s.tasks[t], WaitQueueReceive, c.on);
      assert ReceivedOk(s.tasks[t], s.queues[c.on]);
    }
    if c.waitType == WaitMutex {
      assert Ended(s.tasks[t], WaitMutex, c.on);
    }
  }

  /** BLOCKED exactly when wait type and wait object are set, and each time a task has blocked was
      or will be resolved exactly once. */
  lemma WaitsResolveOnce(states: seq<State>, actions: seq<Action>, k: nat, t: nat)
    requires IsRun(states, actions) && k < |states| && t < |states[k].tasks|
    ensures var c := states[k].tasks[t];
      && (c.state == Blocked <==> c.waitType != WaitNone) && (c.state == Blocked <==> c.waitObject.Some?)
      && c.past.blocks == c.past.grants + c.past.timeouts + (if c.state == Blocked then 1 else 0)
  {
    RunKeeps(states, actions, k);
    assert WaitOk(states[k].tasks[t]) && CallOk(states[k].tasks[t]);
  }

  lemma {:induction false} BlocksFixed(states: seq<State>, actions: seq<Action>, i: nat, j: nat, t: nat)
    requires IsRun(states, actions) && i <= j < |states|
    requires forall k :: i <= k < j ==> t < |states[k].tasks| && states[k].tasks[t].past.call.Some?
    requires t < |states[i].tasks|
    ensures t < |states[j].tasks| && states[j].tasks[t].past.blocks == states[i].tasks[t].past.blocks
  {
    hide IsRun, Enabled, Apply, RunInv, TimeInv;
    RunLength(states, actions);
    if i < j {
      BlocksFixed(states, actions, i, j - 1, t);
      RunStep(states, actions, j - 1);
      EngagedStartsNothing(states[j - 1], actions[j - 1], t);
    }
  }

  /** From the step that blocks a task to the step that returns its call, exactly one grant or one
      timeout happens to it. */
  lemma OneResolutionPerCall(states: seq<State>, actions: seq<Action>, i: nat, j: nat, t: nat)
    requires IsRun(states, actions) && i < j < |actions| && t < |states[i].tasks| && t < |states[i + 1].tasks|
    requires states[i + 1].tasks[t].past.blocks == states[i].tasks[t].past.blocks + 1
    requires states[i].tasks[t].state != Blocked
    requires forall k :: i < k <= j ==> t < |states[k].tasks| && states[k].tasks[t].past.call.Some?
    requires actions[j] == ReturnFromWait && states[j].current == t
    ensures states[j].tasks[t].past.grants + states[j].tasks[t].past.timeouts
         == states[i].tasks[t].past.grants + states[i].tasks[t].past.timeouts + 1
  {
    BlocksFixed(states, actions, i + 1, j, t);
    WaitsResolveOnce(states, actions, i, t);
    WaitsResolveOnce(states, actions, j, t);
    ReturnTellsOutcome(states, actions, j);
  }

  /** A free mutex has no waiters, and no task waits for a mutex it owns. */
  lemma MutexWaiters(states: seq<State>, actions: seq<Action>, k: nat, m: nat)
    requires IsRun(states, actions) && k < |states| && m < |states[k].mutexes|
    ensures states[k].mutexes[m] == None ==> NobodyWaits(states[k], WaitMutex, m)
    ensures forall t :: 0 <= t < |states[k].tasks| && Waits(states[k], t, WaitMutex, m) ==>
      states[k].mutexes[m].Some? && states[k].mutexes[m] != Some(t)
  {
    RunKeeps(states, actions, k);
  }
}
