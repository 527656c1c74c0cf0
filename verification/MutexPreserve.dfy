/** Locking, unlocking and the tick keep the invariant: the steps that change the wait graph. */
module MutexPreserve {
  import opened Collections
  import opened Words
  import opened Inheritance
  import opened KernelState
  import opened KernelSpec
  import opened Invariant
  import opened Preservation

  // ----- recomputing -----

  ghost predicate SameButEff(s: State, s': State) {
    && s' == s.(tasks := s'.tasks) && |s'.tasks| == |s.tasks|
    && forall t :: 0 <= t < |s.tasks| ==> s'.tasks[t] == s.tasks[t].(eff := s'.tasks[t].eff)
  }

  lemma RecomputeShape(s: State)
    ensures SameButEff(s, Recompute(s))
  {
  }

  lemma RecomputeInRange(s: State)
    requires WellFormed(s)
    ensures forall t :: 0 <= t < |s.tasks| ==> Recompute(s).tasks[t].eff < |s.cursor|
  {
    forall t | 0 <= t < |s.tasks| ensures Recompute(s).tasks[t].eff < |s.cursor| {
      var u := InheritedAttained(Bases(s), Edges(s), t);
      assert Bases(s)[u] == s.tasks[u].base;
    }
  }

  lemma RecomputeEstablishes(s: State)
    ensures EffInv(Recompute(s))
  {
    var r := Recompute(s);
    assert Bases(r) == Bases(s);
    assert forall t :: 0 <= t < |s.tasks| ==> Edge(r, t) == Edge(s, t);
    assert Edges(r) == Edges(s);
    assert Effs(r) == InheritedAll(Bases(s), Edges(s));
  }

  lemma EffOnlyKeepsRun(s: State, s': State)
    requires SameButEff(s, s') && RunInv(s) && WaitInv(s)
    requires forall t :: 0 <= t < |s.tasks| ==> s'.tasks[t].eff < |s.cursor|
    ensures RunInv(s') && WaitInv(s')
  {
    assert forall wt, o :: ObjectExists(s', wt, o) == ObjectExists(s, wt, o);
    forall t | 0 <= t < |s.tasks|
      ensures s'.tasks[t].base < |s'.cursor| && s'.tasks[t].eff < |s'.cursor|
      ensures s'.tasks[t].waitObject.Some? ==> ObjectExists(s', s'.tasks[t].waitType, s'.tasks[t].waitObject.value)
    {
      assert s.tasks[t].waitObject.Some? ==> ObjectExists(s, s.tasks[t].waitType, s.tasks[t].waitObject.value);
    }
  }

  lemma EffOnlyKeepsObjects(s: State, s': State)
    requires SameButEff(s, s') && MutexInv(s) && SemInv(s) && QueueInv(s)
    ensures MutexInv(s') && SemInv(s') && QueueInv(s')
  {
    assert forall t, x, y :: 0 <= t < |s.tasks| ==> Waits(s', t, x, y) == Waits(s, t, x, y);
  }

  lemma EffOnlyKeepsTime(s: State, s': State)
    requires SameButEff(s, s') && TimeInv(s) && OrderInv(s) && CallInv(s)
    ensures TimeInv(s') && OrderInv(s') && CallInv(s')
  {
    forall t | 0 <= t < |s.tasks|
      ensures TimeOk(s'.tasks[t], s.now) && OrderOk(s'.tasks[t], s.blockCount) && CallOk(s'.tasks[t])
    {
      assert TimeOk(s.tasks[t], s.now) && OrderOk(s.tasks[t], s.blockCount) && CallOk(s.tasks[t]);
    }
  }

  lemma EffOnlyKeepsCalls(s: State, s': State)
    requires SameButEff(s, s') && GrantInv(s) && ItemInv(s)
    ensures GrantInv(s') && ItemInv(s')
  {
    assert forall t, x, y :: 0 <= t < |s.tasks| ==> Ended(s'.tasks[t], x, y) == Ended(s.tasks[t], x, y);
    forall t, q | 0 <= t < |s.tasks| && 0 <= q < |s.queues| && Ended(s'.tasks[t], WaitQueueReceive, q)
      ensures ReceivedOk(s'.tasks[t], s'.queues[q])
    {
      assert ReceivedOk(s.tasks[t], s.queues[q]);
    }
  }

  lemma RecomputeKeepsBooks(s: State)
    requires BookInv(s)
    ensures BookInv(Recompute(s))
  {
    var r := Recompute(s);
    RecomputeShape(s);
    RecomputeInRange(s);
    EffOnlyKeepsRun(s, r);
    EffOnlyKeepsObjects(s, r);
    EffOnlyKeepsTime(s, r);
    EffOnlyKeepsCalls(s, r);
  }

  // ----- locking -----

  lemma AcquireFreeState(s: State, m: nat)
    requires RunInv(s) && WaitInv(s) && TimeInv(s) && OrderInv(s) && CallInv(s)
    requires ThreadMayCall(s) && m < |s.mutexes| && s.mutexes[m] == None
    ensures var s' := Acquire(s, m, s.current);
      RunInv(s') && WaitInv(s') && TimeInv(s') && OrderInv(s') && CallInv(s')
  {
  }

  lemma AcquireFreeObjects(s: State, m: nat)
    requires MutexInv(s) && SemInv(s) && QueueInv(s) && GrantInv(s) && ItemInv(s)
    requires s.current < |s.tasks| && ThreadMayCall(s) && m < |s.mutexes| && s.mutexes[m] == None
    ensures var s' := Acquire(s, m, s.current);
      MutexInv(s') && SemInv(s') && QueueInv(s') && GrantInv(s') && ItemInv(s')
  {
    var s' := Acquire(s, m, s.current);
    assert NobodyWaits(s, WaitMutex, m);
    assert forall t, x, y :: 0 <= t < |s.tasks| ==> Waits(s', t, x, y) == Waits(s, t, x, y);
    assert forall t, x, y :: 0 <= t < |s.tasks| ==> Ended(s'.tasks[t], x, y) == Ended(s.tasks[t], x, y);
  }

  /** Nobody waits for a free mutex, so taking it adds no edge. */
  lemma AcquireFreePriorities(s: State, m: nat)
    requires EffInv(s) && MutexInv(s) && s.current < |s.tasks| && m < |s.mutexes| && s.mutexes[m] == None
    ensures EffInv(Acquire(s, m, s.current))
  {
    var s' := Acquire(s, m, s.current);
    forall t | 0 <= t < |s.tasks| ensures Edge(s', t) == Edge(s, t) {
      assert !Waits(s, t, WaitMutex, m);
    }
    SameGraphSamePriorities(s, s');
  }

  lemma AcquireFreeKeeps(s: State, m: nat)
    requires Inv(s) && ThreadMayCall(s) && m < |s.mutexes| && s.mutexes[m] == None
    ensures Inv(Acquire(s, m, s.current))
  {
    var s' := Acquire(s, m, s.current);
    AcquireFreeState(s, m);
    AcquireFreeObjects(s, m);
    AcquireFreePriorities(s, m);
    SameReadySameSchedule(s, s');
  }

  lemma LockBlocksKeeps(s: State, m: nat, timeout: Word)
    requires Inv(s) && MayBlock(s, WaitMutex, m, [], timeout)
    ensures Inv(Recompute(Block(s, WaitMutex, m, [], timeout)))
  {
    var b := Block(s, WaitMutex, m, [], timeout);
    BlockKeepsBooks(s, WaitMutex, m, [], timeout);
    RecomputeKeepsBooks(b);
    RecomputeEstablishes(b);
  }

  lemma LockKeeps(s: State, ctx: Context, m: nat, timeout: Word)
    requires Inv(s) && m < |s.mutexes| && (ctx.ThreadMode? ==> ThreadMayCall(s))
    ensures Inv(Lock(s, ctx, m, timeout).s)
  {
    if TimeoutValid(timeout) && ctx.ThreadMode? {
      if s.mutexes[m] == None {
        AcquireFreeKeeps(s, m);
      } else if s.mutexes[m] != Some(s.current) && timeout != 0 {
        LockBlocksKeeps(s, m, timeout);
      }
    }
  }

  // ----- unlocking with a waiter -----

  function HandedOver(s: State, m: nat, w: nat): State
    requires s.current < |s.tasks| && m < |s.mutexes| && w < |s.tasks|
  {
    Wake(Acquire(Release(s), m, w), w, Ok)
  }

  /** What unlock has established when it hands the mutex to w. */
  ghost predicate MayHandOver(s: State, m: nat, w: nat) {
    && RunInv(s) && ThreadMayCall(s) && m < |s.mutexes| && s.mutexes[m] == Some(s.current)
    && w < |s.tasks| && Waits(s, w, WaitMutex, m)
    && forall t :: 0 <= t < |s.tasks| && Waits(s, t, WaitMutex, m) ==> s.tasks[t].eff <= s.tasks[w].eff
  }

  lemma HandedOverWaiters(s: State, m: nat, w: nat)
    requires MayHandOver(s, m, w)
    ensures forall t, x, y :: 0 <= t < |s.tasks| && Waits(HandedOver(s, m, w), t, x, y) <==>
      0 <= t < |s.tasks| && t != w && Waits(s, t, x, y)
  {
  }

  lemma HandOverKeepsRun(s: State, m: nat, w: nat)
    requires MayHandOver(s, m, w) && WaitInv(s)
    ensures var s' := HandedOver(s, m, w); RunInv(s') && WaitInv(s')
  {
  }

  lemma HandOverKeepsTime(s: State, m: nat, w: nat)
    requires MayHandOver(s, m, w) && TimeInv(s) && OrderInv(s) && CallInv(s)
    ensures var s' := HandedOver(s, m, w); TimeInv(s') && OrderInv(s') && CallInv(s')
  {
  }

  lemma HandOverKeepsObjects(s: State, m: nat, w: nat)
    requires MayHandOver(s, m, w) && MutexInv(s) && SemInv(s) && QueueInv(s)
    ensures var s' := HandedOver(s, m, w); MutexInv(s') && SemInv(s') && QueueInv(s')
  {
    HandedOverWaiters(s, m, w);
  }

  lemma HandOverKeepsCalls(s: State, m: nat, w: nat)
    requires MayHandOver(s, m, w) && CallInv(s) && GrantInv(s) && ItemInv(s)
    ensures var s' := HandedOver(s, m, w); GrantInv(s') && ItemInv(s')
  {
    var s' := HandedOver(s, m, w);
    assert s.tasks[w].past.call == Some(Call(WaitMutex, m));
    assert forall t, x, y :: 0 <= t < |s.tasks| && Ended(s'.tasks[t], x, y) ==>
      (t == w && x == WaitMutex && y == m) || (t != w && t != s.current && Ended(s.tasks[t], x, y));
    forall t, q | 0 <= t < |s.tasks| && 0 <= q < |s.queues| && Ended(s'.tasks[t], WaitQueueReceive, q)
      ensures ReceivedOk(s'.tasks[t], s'.queues[q])
    {
      assert ReceivedOk(s.tasks[t], s.queues[q]);
    }
  }

  lemma HandOverKeepsBooks(s: State, m: nat, w: nat)
    requires MayHandOver(s, m, w) && BookInv(s)
    ensures BookInv(HandedOver(s, m, w))
  {
    HandOverKeepsRun(s, m, w);
    HandOverKeepsTime(s, m, w);
    HandOverKeepsObjects(s, m, w);
    HandOverKeepsCalls(s, m, w);
  }

  /** The wait graph before and after, in the terms of module Inheritance. */
  lemma HandOverGraph(s: State, m: nat, w: nat)
    requires MayHandOver(s, m, w) && MutexInv(s)
    ensures HandOver(Bases(s), Edges(s), Edges(HandedOver(s, m, w)), Effs(s), s.current, w)
    ensures Bases(HandedOver(s, m, w)) == Bases(s)
  {
    var s' := HandedOver(s, m, w);
    HandedOverWaiters(s, m, w);
    forall t | 0 <= t < |s.tasks| && t != w
      ensures Edges(s')[t] == Edges(s)[t]
           || (Edges(s)[t] == Some(s.current) && Edges(s')[t] == Some(w) && Effs(s)[t] <= Effs(s)[w])
    {
      if Waits(s, t, WaitMutex, m) {
        assert Edge(s, t) == Some(s.current) && Edge(s', t) == Some(w);
      } else {
        assert Edge(s', t) == Edge(s, t);
      }
    }
  }

  /** The effective priorities after the hand-over: only the caller's can have changed. */
  lemma HandOverEffs(s: State, m: nat, w: nat)
    requires MayHandOver(s, m, w) && MutexInv(s) && EffInv(s)
    ensures var h := HandedOver(s, m, w); var r := Recompute(h);
      && SameButEff(h, r)
      && (forall t :: 0 <= t < |s.tasks| && t != s.current ==> r.tasks[t].eff == s.tasks[t].eff)
      && (s.tasks[s.current].eff <= r.tasks[s.current].eff || s.tasks[s.current].eff <= r.tasks[w].eff)
  {
    var h := HandedOver(s, m, w);
    var r := Recompute(h);
    RecomputeShape(h);
    HandOverGraph(s, m, w);
    HandOverPriorities(Bases(s), Edges(s), Edges(h), Effs(s), Effs(r), s.current, w);
    forall t | 0 <= t < |s.tasks| && t != s.current ensures r.tasks[t].eff == s.tasks[t].eff {
      assert Effs(r)[t] == Effs(s)[t];
    }
  }

  /** Unlock lowers its caller's inherited priority and compares it with the woken waiter alone;
      that is enough: some READY task outranks the caller exactly if the woken one does. */
  lemma UnlockComparesEnough(s: State, m: nat, w: nat)
    requires MayHandOver(s, m, w) && MutexInv(s) && EffInv(s) && SchedInv(s)
    requires WellFormed(HandedOver(s, m, w)) && WellFormed(Recompute(HandedOver(s, m, w)))
    ensures var r := Recompute(HandedOver(s, m, w));
      r.tasks[w].eff > r.tasks[s.current].eff <==>
        exists t :: 0 <= t < |r.tasks| && r.tasks[t].state == Ready && r.tasks[t].eff > r.tasks[s.current].eff
    ensures SchedInv(MaybePreempt(Recompute(HandedOver(s, m, w)), w))
  {
    var h := HandedOver(s, m, w);
    var r := Recompute(h);
    hide EffInv, MutexInv, Recompute;
    HandOverEffs(s, m, w);
    assert r.tasks[w].state == Ready;
    forall t | 0 <= t < |s.tasks| && r.tasks[t].state == Ready && r.tasks[w].eff <= r.tasks[s.current].eff
      ensures r.tasks[t].eff <= r.tasks[s.current].eff
    {
      if t != w && t != s.current {
        assert s.tasks[t].state == Ready;
      }
    }
  }

  lemma UnlockHandsOverKeeps(s: State, m: nat, w: nat)
    requires Inv(s) && MayHandOver(s, m, w)
    ensures Inv(MaybePreempt(Recompute(HandedOver(s, m, w)), w))
  {
    hide WaitInv, MutexInv, SemInv, QueueInv, TimeInv, OrderInv, CallInv, GrantInv, ItemInv, Recompute;
    var h := HandedOver(s, m, w);
    HandOverKeepsBooks(s, m, w);
    RecomputeKeepsBooks(h);
    RecomputeEstablishes(h);
    UnlockComparesEnough(s, m, w);
    RequestKeepsInv(Recompute(h), MaybePreempt(Recompute(h), w));
  }

  // ----- unlocking without a waiter -----

  function Freed(s: State, m: nat): State
    requires s.current < |s.tasks| && m < |s.mutexes|
  {
    Release(s).(mutexes := s.mutexes[m := None])
  }

  ghost predicate MayFree(s: State, m: nat) {
    && RunInv(s) && ThreadMayCall(s) && m < |s.mutexes| && s.mutexes[m] == Some(s.current)
    && NobodyWaits(s, WaitMutex, m)
  }

  lemma FreeKeepsState(s: State, m: nat)
    requires MayFree(s, m) && WaitInv(s) && TimeInv(s) && OrderInv(s) && CallInv(s)
    ensures var s' := Freed(s, m); RunInv(s') && WaitInv(s') && TimeInv(s') && OrderInv(s') && CallInv(s')
  {
  }

  lemma FreeKeepsObjects(s: State, m: nat)
    requires MayFree(s, m) && MutexInv(s) && SemInv(s) && QueueInv(s) && GrantInv(s) && ItemInv(s)
    ensures var s' := Freed(s, m); MutexInv(s') && SemInv(s') && QueueInv(s') && GrantInv(s') && ItemInv(s')
  {
    var s' := Freed(s, m);
    assert forall t, x, y :: 0 <= t < |s.tasks| ==> Waits(s', t, x, y) == Waits(s, t, x, y);
    assert forall t, x, y :: 0 <= t < |s.tasks| ==> Ended(s'.tasks[t], x, y) == Ended(s.tasks[t], x, y);
  }

  /** Recomputing an agreed state changes nothing. */
  lemma RecomputeIdempotent(s: State)
    requires EffInv(s)
    ensures Recompute(s) == s
  {
    forall t | 0 <= t < |s.tasks| ensures Recompute(s).tasks[t] == s.tasks[t] {
      assert Effs(s)[t] == s.tasks[t].eff;
    }
    assert Recompute(s).tasks == s.tasks;
  }

  lemma FreePriorities(s: State, m: nat)
    requires EffInv(s) && s.current < |s.tasks| && m < |s.mutexes| && NobodyWaits(s, WaitMutex, m)
    ensures EffInv(Freed(s, m))
  {
    var s' := Freed(s, m);
    forall t | 0 <= t < |s.tasks| ensures Edge(s', t) == Edge(s, t) {
      assert !Waits(s, t, WaitMutex, m);
    }
    SameGraphSamePriorities(s, s');
  }

  lemma UnlockFreesKeeps(s: State, m: nat)
    requires Inv(s) && MayFree(s, m)
    ensures Inv(Recompute(Freed(s, m)))
  {
    var s' := Freed(s, m);
    FreeKeepsState(s, m);
    FreeKeepsObjects(s, m);
    FreePriorities(s, m);
    SameReadySameSchedule(s, s');
    RecomputeIdempotent(s');
  }

  lemma UnlockCases(s: State, m: nat)
    requires RunInv(s) && ThreadMayCall(s) && m < |s.mutexes| && s.mutexes[m] == Some(s.current)
    ensures var found := FindWaiter(Release(s), WaitMutex, m);
      if found.Some? then
        && MayHandOver(s, m, found.value)
        && Unlock(s, ThreadMode, m).s == MaybePreempt(Recompute(HandedOver(s, m, found.value)), found.value)
      else MayFree(s, m) && Unlock(s, ThreadMode, m).s == Recompute(Freed(s, m))
  {
    assert forall t, x, y :: 0 <= t < |s.tasks| ==> Waits(Release(s), t, x, y) == Waits(s, t, x, y);
    assert forall t :: 0 <= t < |s.tasks| ==> Release(s).tasks[t].eff == s.tasks[t].eff;
  }

  lemma UnlockKeeps(s: State, ctx: Context, m: nat)
    requires Inv(s) && m < |s.mutexes| && (ctx.ThreadMode? ==> ThreadMayCall(s))
    ensures Inv(Unlock(s, ctx, m).s)
  {
    if ctx.ThreadMode? && s.mutexes[m] == Some(s.current) {
      UnlockCases(s, m);
      var found := FindWaiter(Release(s), WaitMutex, m);
      if found.Some? {
        UnlockHandsOverKeeps(s, m, found.value);
      } else {
        UnlockFreesKeeps(s, m);
      }
    }
  }

  // ----- the tick -----

  function Ticked(s: State): State {
    Expire(Advance(s)).(pending := true)
  }

  lemma TickedWaiters(s: State)
    ensures forall t, x, y :: 0 <= t < |s.tasks| && Waits(Ticked(s), t, x, y) ==> Waits(s, t, x, y)
  {
  }

  lemma TickKeepsRun(s: State)
    requires RunInv(s) && WaitInv(s)
    ensures RunInv(Ticked(s)) && WaitInv(Ticked(s))
  {
    var s' := Ticked(s);
    assert forall wt, o :: ObjectExists(s', wt, o) == ObjectExists(s, wt, o);
    forall t | 0 <= t < |s.tasks|
      ensures WaitOk(s'.tasks[t]) && (s'.tasks[t].state == Running ==> t == s.current)
      ensures s'.tasks[t].base < |s'.cursor| && s'.tasks[t].eff < |s'.cursor|
      ensures s'.tasks[t].waitObject.Some? ==> ObjectExists(s', s'.tasks[t].waitType, s'.tasks[t].waitObject.value)
    {
      assert WaitOk(s.tasks[t]) && s'.tasks[t] == ExpireTcb(s.tasks[t], s'.ticks);
      assert s.tasks[t].waitObject.Some? ==> ObjectExists(s, s.tasks[t].waitType, s.tasks[t].waitObject.value);
    }
  }

  lemma TickKeepsObjects(s: State)
    requires MutexInv(s) && SemInv(s) && QueueInv(s)
    ensures MutexInv(Ticked(s)) && SemInv(Ticked(s)) && QueueInv(Ticked(s))
  {
    TickedWaiters(s);
    assert forall t :: 0 <= t < |s.tasks| ==> Ticked(s).tasks[t].buffer == s.tasks[t].buffer;
  }

  /** A task whose deadline is this tick leaves its wait; every other deadline stays ahead. */
  lemma ExpireOnTime(k: Tcb, now: nat)
    requires TimeOk(k, now)
    ensures TimeOk(ExpireTcb(k, Wrap32(now + 1)), now + 1)
    ensures ExpireTcb(k, Wrap32(now + 1)) != k <==> Timed(k) && k.past.deadline == now + 1
  {
    if Timed(k) {
      DeadlineExact(now + 1, k.past.deadline);
    }
  }

  lemma TickKeepsTime(s: State)
    requires TimeInv(s) && OrderInv(s) && CallInv(s)
    ensures TimeInv(Ticked(s)) && OrderInv(Ticked(s)) && CallInv(Ticked(s))
  {
    var s' := Ticked(s);
    WrapSum(s.now, 1);
    forall t | 0 <= t < |s.tasks|
      ensures TimeOk(s'.tasks[t], s'.now) && OrderOk(s'.tasks[t], s'.blockCount) && CallOk(s'.tasks[t])
    {
      assert TimeOk(s.tasks[t], s.now) && OrderOk(s.tasks[t], s.blockCount) && CallOk(s.tasks[t]);
      ExpireOnTime(s.tasks[t], s.now);
    }
  }

  lemma TickKeepsCalls(s: State)
    requires MutexInv(s) && CallInv(s) && GrantInv(s) && ItemInv(s)
    ensures GrantInv(Ticked(s)) && ItemInv(Ticked(s))
  {
    var s' := Ticked(s);
    forall t, m | 0 <= t < |s.tasks| && 0 <= m < |s.mutexes| && Ended(s'.tasks[t], WaitMutex, m)
      ensures s'.tasks[t].past.granted <==> s'.mutexes[m] == Some(t)
    {
      assert Ended(s.tasks[t], WaitMutex, m) || Waits(s, t, WaitMutex, m) by {
        assert CallOk(s.tasks[t]);
      }
    }
    forall t, q | 0 <= t < |s.tasks| && 0 <= q < |s.queues| && Ended(s'.tasks[t], WaitQueueReceive, q)
      ensures ReceivedOk(s'.tasks[t], s'.queues[q])
    {
      assert CallOk(s.tasks[t]);
      if Ended(s.tasks[t], WaitQueueReceive, q) {
        assert ReceivedOk(s.tasks[t], s.queues[q]);
      }
    }
  }

  /** Only a mutex timeout changes the wait graph. */
  lemma QuietTickKeepsPriorities(s: State)
    requires EffInv(s) && !MutexTimesOut(Advance(s))
    ensures EffInv(Ticked(s))
  {
    var s' := Ticked(s);
    forall t | 0 <= t < |s.tasks|
      ensures s'.tasks[t].base == s.tasks[t].base && s'.tasks[t].eff == s.tasks[t].eff && Edge(s', t) == Edge(s, t)
    {
      assert s'.tasks[t] == ExpireTcb(Advance(s).tasks[t], Advance(s).ticks);
      assert !(TimesOut(Advance(s).tasks[t], Advance(s).ticks) && Advance(s).tasks[t].waitType == WaitMutex);
    }
    SameGraphSamePriorities(s, s');
  }

  lemma TickShape(s: State)
    ensures Tick(s) == if MutexTimesOut(Advance(s)) then Recompute(Ticked(s)) else Ticked(s)
  {
    var expired := Expire(Advance(s));
    assert forall t :: 0 <= t < |s.tasks| ==> Edge(Ticked(s), t) == Edge(expired, t);
    assert Edges(Ticked(s)) == Edges(expired) && Bases(Ticked(s)) == Bases(expired);
    assert Recompute(Ticked(s)).tasks == Recompute(expired).tasks;
  }

  lemma TickKeeps(s: State)
    requires Inv(s)
    ensures Inv(Tick(s))
  {
    TickShape(s);
    TickKeepsRun(s);
    TickKeepsObjects(s);
    TickKeepsTime(s);
    TickKeepsCalls(s);
    if MutexTimesOut(Advance(s)) {
      RecomputeKeepsBooks(Ticked(s));
      RecomputeEstablishes(Ticked(s));
    } else {
      QuietTickKeepsPriorities(s);
    }
  }
}
