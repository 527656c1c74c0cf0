/** Every step keeps the invariant. */
module Preservation {
  import opened Collections
  import opened Words
  import opened KernelState
  import opened KernelSpec
  import opened Invariant

  /** Everything but the two properties about priorities. */
  ghost predicate BookInv(s: State) {
    && RunInv(s) && WaitInv(s) && MutexInv(s) && SemInv(s) && QueueInv(s)
    && TimeInv(s) && OrderInv(s) && CallInv(s) && GrantInv(s) && ItemInv(s)
  }

  // ----- steps that leave the mutex wait graph alone leave the priorities right -----

  lemma SameGraphSamePriorities(s: State, s': State)
    requires EffInv(s) && |s'.tasks| == |s.tasks|
    requires forall t :: 0 <= t < |s.tasks| ==>
      s'.tasks[t].base == s.tasks[t].base && s'.tasks[t].eff == s.tasks[t].eff && Edge(s', t) == Edge(s, t)
    ensures EffInv(s')
  {
    assert Effs(s') == Effs(s) && Bases(s') == Bases(s) && Edges(s') == Edges(s);
  }

  lemma SameReadySameSchedule(s: State, s': State)
    requires RunInv(s) && SchedInv(s) && WellFormed(s') && |s'.tasks| == |s.tasks|
    requires s'.current == s.current && (s.pending ==> s'.pending)
    requires forall t :: 0 <= t < |s.tasks| ==>
      s'.tasks[t].eff == s.tasks[t].eff && (s'.tasks[t].state == Ready ==> s.tasks[t].state == Ready)
    ensures SchedInv(s')
  {
  }

  // ----- steps that only touch the objects or request a switch -----

  ghost predicate SameTasks(s: State, s': State) {
    && s' == s.(sems := s'.sems, queues := s'.queues, pending := s'.pending, fault := s'.fault)
    && (s.pending ==> s'.pending) && (s'.fault == s.fault || s'.fault != FaultKernelInvariant)
    && |s'.sems| == |s.sems| && |s'.queues| == |s.queues|
  }

  lemma SameTasksRun(s: State, s': State)
    requires SameTasks(s, s') && RunInv(s)
    ensures RunInv(s')
  {
    assert forall wt, o :: ObjectExists(s', wt, o) == ObjectExists(s, wt, o);
  }

  lemma SameTasksMutex(s: State, s': State)
    requires SameTasks(s, s') && MutexInv(s) && GrantInv(s)
    ensures MutexInv(s') && GrantInv(s')
  {
    assert forall t, x, y :: 0 <= t < |s.tasks| ==> Waits(s', t, x, y) == Waits(s, t, x, y);
  }

  lemma SameTasksTime(s: State, s': State)
    requires SameTasks(s, s') && WaitInv(s) && TimeInv(s) && OrderInv(s) && CallInv(s)
    ensures WaitInv(s') && TimeInv(s') && OrderInv(s') && CallInv(s')
  {
  }

  ghost predicate DeliveredKept(s: State, s': State) {
    |s'.queues| == |s.queues| &&
    forall q, i :: 0 <= q < |s.queues| && i in s.queues[q].delivered ==> i in s'.queues[q].delivered
  }

  lemma SameTasksItems(s: State, s': State)
    requires SameTasks(s, s') && ItemInv(s) && DeliveredKept(s, s')
    ensures ItemInv(s')
  {
    forall t, q | 0 <= t < |s.tasks| && 0 <= q < |s.queues| && Ended(s'.tasks[t], WaitQueueReceive, q)
      ensures ReceivedOk(s'.tasks[t], s'.queues[q])
    {
      assert ReceivedOk(s.tasks[t], s.queues[q]);
    }
  }

  lemma SameObjects(s: State, s': State)
    requires s' == s.(pending := s'.pending, fault := s'.fault) && SemInv(s) && QueueInv(s)
    ensures SemInv(s') && QueueInv(s') && DeliveredKept(s, s')
  {
    assert forall t, x, y :: 0 <= t < |s.tasks| ==> Waits(s', t, x, y) == Waits(s, t, x, y);
  }

  lemma ObjectStep(s: State, s': State)
    requires BookInv(s) && SchedInv(s) && EffInv(s) && SameTasks(s, s')
    requires SemInv(s') && QueueInv(s') && DeliveredKept(s, s')
    ensures Inv(s')
  {
    SameTasksRun(s, s');
    SameTasksMutex(s, s');
    SameTasksTime(s, s');
    SameTasksItems(s, s');
    SameReadySameSchedule(s, s');
    SameGraphSamePriorities(s, s');
  }

  /** Requesting a switch never hurts; it is needed only where a READY task is ahead. */
  lemma RequestKeepsInv(s: State, s': State)
    requires BookInv(s) && EffInv(s)
    requires s' == s.(pending := s'.pending) && (s.pending ==> s'.pending)
    requires SchedInv(s')
    ensures Inv(s')
  {
    SameObjects(s, s');
    SameTasksRun(s, s');
    SameTasksMutex(s, s');
    SameTasksTime(s, s');
    SameTasksItems(s, s');
    SameGraphSamePriorities(s, s');
  }

  // ----- waking a semaphore taker or a queue sender -----

  ghost predicate MayWake(s: State, w: nat, wt: WaitType, o: nat) {
    && w < |s.tasks| && Waits(s, w, wt, o) && ObjectExists(s, wt, o)
    && wt != WaitMutex && wt != WaitQueueReceive
  }

  lemma WokenWaiters(s: State, w: nat, result: Status)
    requires w < |s.tasks|
    ensures forall t, x, y :: 0 <= t < |s.tasks| && Waits(Wake(s, w, result), t, x, y) ==>
      t != w && Waits(s, t, x, y)
  {
  }

  lemma WakeKeepsRun(s: State, w: nat, wt: WaitType, o: nat)
    requires MayWake(s, w, wt, o) && RunInv(s) && WaitInv(s)
    ensures RunInv(Wake(s, w, Ok)) && WaitInv(Wake(s, w, Ok))
  {
  }

  lemma WakeKeepsObjects(s: State, w: nat, wt: WaitType, o: nat)
    requires MayWake(s, w, wt, o) && MutexInv(s) && SemInv(s) && QueueInv(s)
    ensures MutexInv(Wake(s, w, Ok)) && SemInv(Wake(s, w, Ok)) && QueueInv(Wake(s, w, Ok))
  {
    WokenWaiters(s, w, Ok);
  }

  lemma WakeKeepsTime(s: State, w: nat, wt: WaitType, o: nat)
    requires MayWake(s, w, wt, o) && TimeInv(s) && OrderInv(s)
    ensures TimeInv(Wake(s, w, Ok)) && OrderInv(Wake(s, w, Ok))
  {
  }

  lemma WakeKeepsCalls(s: State, w: nat, wt: WaitType, o: nat)
    requires MayWake(s, w, wt, o) && CallInv(s) && GrantInv(s) && ItemInv(s)
    ensures CallInv(Wake(s, w, Ok)) && GrantInv(Wake(s, w, Ok)) && ItemInv(Wake(s, w, Ok))
  {
    var s' := Wake(s, w, Ok);
    assert s.tasks[w].past.call == Some(Call(wt, o));
    assert forall t, x, y :: 0 <= t < |s.tasks| && Ended(s'.tasks[t], x, y) ==>
      (t == w && x == wt && y == o) || Ended(s.tasks[t], x, y);
  }

  lemma WakeKeepsInv(s: State, w: nat, wt: WaitType, o: nat)
    requires MayWake(s, w, wt, o) && Inv(s)
    ensures Inv(MaybePreempt(Wake(s, w, Ok), w))
  {
    hide WaitInv, MutexInv, SemInv, QueueInv, TimeInv, OrderInv, CallInv, GrantInv, ItemInv;
    var woken := Wake(s, w, Ok);
    WakeKeepsRun(s, w, wt, o);
    WakeKeepsObjects(s, w, wt, o);
    WakeKeepsTime(s, w, wt, o);
    WakeKeepsCalls(s, w, wt, o);
    SameGraphSamePriorities(s, woken);
    RequestKeepsInv(woken, MaybePreempt(woken, w));
  }

  // ----- blocking -----

  /** What the call paths check before they block. */
  ghost predicate MayBlock(s: State, wt: WaitType, o: nat, buffer: Item, timeout: Word) {
    && RunInv(s) && ThreadMayCall(s) && ObjectExists(s, wt, o) && TimeoutValid(timeout) && timeout > 0
    && match wt
       case WaitNone => false
       case WaitSemaphore => s.sems[o].count == 0
       case WaitMutex => s.mutexes[o].Some? && s.mutexes[o] != Some(s.current)
       case WaitQueueReceive => s.queues[o].items == [] && buffer == []
       case WaitQueueSend => |s.queues[o].items| == s.queues[o].capacity && |buffer| == s.queues[o].itemSize
  }

  lemma BlockedWaiters(s: State, wt: WaitType, o: nat, buffer: Item, timeout: Word)
    requires MayBlock(s, wt, o, buffer, timeout)
    ensures forall t, x, y :: 0 <= t < |s.tasks| && Waits(Block(s, wt, o, buffer, timeout), t, x, y) ==>
      Waits(s, t, x, y) || (t == s.current && x == wt && y == o)
  {
  }

  lemma BlockKeepsRun(s: State, wt: WaitType, o: nat, buffer: Item, timeout: Word)
    requires MayBlock(s, wt, o, buffer, timeout) && WaitInv(s)
    ensures RunInv(Block(s, wt, o, buffer, timeout)) && WaitInv(Block(s, wt, o, buffer, timeout))
  {
  }

  lemma BlockKeepsObjects(s: State, wt: WaitType, o: nat, buffer: Item, timeout: Word)
    requires MayBlock(s, wt, o, buffer, timeout) && MutexInv(s) && SemInv(s) && QueueInv(s)
    ensures MutexInv(Block(s, wt, o, buffer, timeout))
    ensures SemInv(Block(s, wt, o, buffer, timeout))
    ensures QueueInv(Block(s, wt, o, buffer, timeout))
  {
    BlockedWaiters(s, wt, o, buffer, timeout);
  }

  lemma BlockKeepsTime(s: State, wt: WaitType, o: nat, buffer: Item, timeout: Word)
    requires MayBlock(s, wt, o, buffer, timeout) && TimeInv(s)
    ensures TimeInv(Block(s, wt, o, buffer, timeout))
  {
    WrapSum(s.now, timeout);
  }

  lemma BlockKeepsOrder(s: State, wt: WaitType, o: nat, buffer: Item, timeout: Word)
    requires MayBlock(s, wt, o, buffer, timeout) && OrderInv(s)
    ensures OrderInv(Block(s, wt, o, buffer, timeout))
  {
    WrapSum(s.blockCount, 1);
  }

  lemma BlockKeepsCalls(s: State, wt: WaitType, o: nat, buffer: Item, timeout: Word)
    requires MayBlock(s, wt, o, buffer, timeout) && CallInv(s) && GrantInv(s) && ItemInv(s)
    ensures CallInv(Block(s, wt, o, buffer, timeout))
    ensures GrantInv(Block(s, wt, o, buffer, timeout))
    ensures ItemInv(Block(s, wt, o, buffer, timeout))
  {
    var s' := Block(s, wt, o, buffer, timeout);
    assert forall t, x, y :: 0 <= t < |s.tasks| && Ended(s'.tasks[t], x, y) ==>
      t != s.current && Ended(s.tasks[t], x, y);
  }

  lemma BlockKeepsBooks(s: State, wt: WaitType, o: nat, buffer: Item, timeout: Word)
    requires BookInv(s) && MayBlock(s, wt, o, buffer, timeout)
    ensures BookInv(Block(s, wt, o, buffer, timeout))
  {
    BlockKeepsRun(s, wt, o, buffer, timeout);
    BlockKeepsObjects(s, wt, o, buffer, timeout);
    BlockKeepsTime(s, wt, o, buffer, timeout);
    BlockKeepsOrder(s, wt, o, buffer, timeout);
    BlockKeepsCalls(s, wt, o, buffer, timeout);
  }

  lemma BlockKeepsInv(s: State, wt: WaitType, o: nat, buffer: Item, timeout: Word)
    requires Inv(s) && MayBlock(s, wt, o, buffer, timeout) && wt != WaitMutex
    ensures Inv(Block(s, wt, o, buffer, timeout))
  {
    BlockKeepsBooks(s, wt, o, buffer, timeout);
    SameGraphSamePriorities(s, Block(s, wt, o, buffer, timeout));
  }
}
