/** What holds in every reachable state. */
module Invariant {
  import opened Collections
  import opened Words
  import opened Inheritance
  import opened KernelState

  /** At most the current task is RUNNING, and it is RUNNING when no switch is pending. The idle
      task can always run, so selection cannot come up empty. */
  ghost predicate RunInv(s: State) {
    && WellFormed(s)
    && (forall t :: 0 <= t < |s.tasks| && s.tasks[t].state == Running ==> t == s.current)
    && (!s.pending ==> s.tasks[s.current].state == Running)
    && Runnable(s.tasks[0]) && s.tasks[0].base == 0 && s.tasks[0].past.call == None
    && s.fault != FaultKernelInvariant
  }

  /** With no switch pending, no READY task has a higher effective priority than the current one. */
  ghost predicate SchedInv(s: State)
    requires WellFormed(s)
  {
    !s.pending ==>
      forall t :: 0 <= t < |s.tasks| && s.tasks[t].state == Ready ==> s.tasks[t].eff <= s.tasks[s.current].eff
  }

  /** The stored effective priorities are the inherited ones. */
  ghost predicate EffInv(s: State) {
    Effs(s) == InheritedAll(Bases(s), Edges(s))
  }

  /** BLOCKED exactly when wait type and wait object are set. */
  predicate WaitOk(k: Tcb) {
    && (k.state == Blocked <==> k.waitType != WaitNone)
    && (k.state == Blocked <==> k.waitObject.Some?)
  }

  ghost predicate WaitInv(s: State) {
    forall t :: 0 <= t < |s.tasks| ==> WaitOk(s.tasks[t])
  }

  /** A free mutex has no waiters, and no task waits for a mutex of its own. */
  ghost predicate MutexInv(s: State) {
    && (forall m :: 0 <= m < |s.mutexes| && s.mutexes[m] == None ==> NobodyWaits(s, WaitMutex, m))
    && (forall t, m :: 0 <= t < |s.tasks| && 0 <= m < |s.mutexes| && Waits(s, t, WaitMutex, m) ==>
          s.mutexes[m] != Some(t))
  }

  /** Conservation: initial + gives == takes + count; a positive count excludes waiters. */
  ghost predicate SemInv(s: State) {
    forall i :: 0 <= i < |s.sems| ==>
      && s.sems[i].count <= s.sems[i].maximum
      && s.sems[i].initial + s.sems[i].gives == s.sems[i].takes + s.sems[i].count
      && (s.sems[i].count > 0 ==> NobodyWaits(s, WaitSemaphore, i))
  }

  /** Accepted items are the delivered ones followed by the buffered ones. */
  ghost predicate FifoOk(f: Fifo) {
    && 0 < f.capacity && |f.items| <= f.capacity
    && f.accepted == f.delivered + f.items
    && (forall j :: 0 <= j < |f.items| ==> |f.items[j]| == f.itemSize)
  }

  /** Waiting receivers imply an empty queue, waiting senders a full one. */
  ghost predicate QueueInv(s: State) {
    && (forall q :: 0 <= q < |s.queues| ==> FifoOk(s.queues[q]))
    && (forall t, q :: 0 <= t < |s.tasks| && 0 <= q < |s.queues| && Waits(s, t, WaitQueueReceive, q) ==>
          s.queues[q].items == [])
    && (forall t, q :: 0 <= t < |s.tasks| && 0 <= q < |s.queues| && Waits(s, t, WaitQueueSend, q) ==>
          |s.queues[q].items| == s.queues[q].capacity && |s.tasks[t].buffer| == s.queues[q].itemSize)
  }

  predicate Timed(k: Tcb) {
    k.state == Delayed || (k.state == Blocked && !k.waitForever)
  }

  /** A pending deadline is ahead by less than 2^31 and stored modulo 2^32. */
  predicate TimeOk(k: Tcb, now: nat) {
    Timed(k) ==> now < k.past.deadline < now + TWO31 && k.wakeTick == Wrap32(k.past.deadline)
  }

  ghost predicate TimeInv(s: State) {
    && s.ticks == Wrap32(s.now)
    && forall t :: 0 <= t < |s.tasks| ==> TimeOk(s.tasks[t], s.now)
  }

  predicate OrderOk(k: Tcb, blockCount: nat) {
    k.state == Blocked ==> k.past.blockedAt <= blockCount && k.waitSequence == Wrap32(k.past.blockedAt)
  }

  /** Stored sequence numbers are the true ones modulo 2^32; no two waiters share a true one. */
  ghost predicate OrderInv(s: State) {
    && s.waitSequence == Wrap32(s.blockCount)
    && (forall t :: 0 <= t < |s.tasks| ==> OrderOk(s.tasks[t], s.blockCount))
    && (forall t, u :: 0 <= t < u < |s.tasks| && s.tasks[t].state == s.tasks[u].state == Blocked ==>
          s.tasks[t].past.blockedAt != s.tasks[u].past.blockedAt)
  }

  /** Every wait ends once, by a grant or by a timeout, and leaves the matching result behind. */
  predicate CallOk(k: Tcb) {
    && k.past.blocks == k.past.grants + k.past.timeouts + (if k.state == Blocked then 1 else 0)
    && (k.state == Blocked ==>
          k.waitObject.Some? && k.past.call == Some(Call(k.waitType, k.waitObject.value)))
    && (k.past.call.Some? && k.state != Blocked ==>
          Runnable(k) && k.waitResult == (if k.past.granted then Ok else ErrTimeout))
  }

  /** The call of task k is on an object that exists. */
  ghost predicate CallOnObject(s: State, k: Tcb) {
    k.past.call.Some? ==> ObjectExists(s, k.past.call.value.waitType, k.past.call.value.on)
  }

  ghost predicate CallInv(s: State) {
    forall t :: 0 <= t < |s.tasks| ==> CallOk(s.tasks[t]) && CallOnObject(s, s.tasks[t])
  }

  /** The wait for `o` of kind `wt` that task k started has ended but not yet returned. */
  predicate Ended(k: Tcb, wt: WaitType, o: nat) {
    k.state != Blocked && k.past.call == Some(Call(wt, o))
  }

  /** An ended lock call was granted exactly if its task owns the mutex. */
  ghost predicate GrantInv(s: State) {
    forall t, m :: 0 <= t < |s.tasks| && 0 <= m < |s.mutexes| && Ended(s.tasks[t], WaitMutex, m) ==>
      (s.tasks[t].past.granted <==> s.mutexes[m] == Some(t))
  }

  /** A granted receive got an item of the delivery log; any other receive has none. */
  predicate ReceivedOk(k: Tcb, f: Fifo) {
    if k.past.granted then k.buffer in f.delivered else k.buffer == []
  }

  ghost predicate ItemInv(s: State) {
    && (forall t :: 0 <= t < |s.tasks| && s.tasks[t].state == Blocked && s.tasks[t].waitType == WaitQueueReceive ==>
          s.tasks[t].buffer == [])
    && (forall t, q :: 0 <= t < |s.tasks| && 0 <= q < |s.queues| && Ended(s.tasks[t], WaitQueueReceive, q) ==>
          ReceivedOk(s.tasks[t], s.queues[q]))
  }

  ghost predicate Inv(s: State) {
    && RunInv(s) && SchedInv(s) && EffInv(s)
    && WaitInv(s) && MutexInv(s) && SemInv(s) && QueueInv(s)
    && TimeInv(s) && OrderInv(s) && CallInv(s) && GrantInv(s) && ItemInv(s)
  }
}
