/** The calls on semaphores and queues keep the invariant. */
module CallsPreserve {
  import opened Collections
  import opened Words
  import opened KernelState
  import opened KernelSpec
  import opened Invariant
  import opened Preservation

  // ----- semaphores -----

  /** Changing one semaphore's numbers without creating a count beside a waiter. */
  lemma SemStep(s: State, i: nat, m: Sem)
    requires Inv(s) && i < |s.sems|
    requires m.count <= m.maximum && m.initial + m.gives == m.takes + m.count
    requires m.count > 0 ==> NobodyWaits(s, WaitSemaphore, i)
    ensures Inv(s.(sems := s.sems[i := m]))
  {
    var s' := s.(sems := s.sems[i := m]);
    assert forall t, x, y :: 0 <= t < |s.tasks| ==> Waits(s', t, x, y) == Waits(s, t, x, y);
    assert SemInv(s');
    assert QueueInv(s');
    ObjectStep(s, s');
  }

  lemma TakeTokenKeeps(s: State, i: nat)
    requires Inv(s) && i < |s.sems| && s.sems[i].count != 0
    ensures Inv(s.(sems := s.sems[i := s.sems[i].(count := s.sems[i].count - 1, takes := s.sems[i].takes + 1)]))
  {
    SemStep(s, i, s.sems[i].(count := s.sems[i].count - 1, takes := s.sems[i].takes + 1));
  }

  lemma TakeBlocksKeeps(s: State, i: nat, timeout: Word)
    requires Inv(s) && i < |s.sems| && s.sems[i].count == 0
    requires ThreadMayCall(s) && TimeoutValid(timeout) && timeout > 0
    ensures Inv(Block(s, WaitSemaphore, i, [], timeout))
  {
    BlockKeepsInv(s, WaitSemaphore, i, [], timeout);
  }

  lemma TakeKeeps(s: State, ctx: Context, i: nat, timeout: Word)
    requires Inv(s) && i < |s.sems| && (ctx.ThreadMode? ==> ThreadMayCall(s))
    ensures Inv(Take(s, ctx, i, timeout).s)
  {
    hide Inv;
    if TimeoutValid(timeout) && ctx.ThreadMode? {
      if s.sems[i].count != 0 {
        TakeTokenKeeps(s, i);
      } else if timeout != 0 {
        TakeBlocksKeeps(s, i, timeout);
      }
    }
  }

  lemma GiveToWaiterKeeps(s: State, i: nat, w: nat, m: Sem)
    requires Inv(s) && i < |s.sems| && w < |s.tasks| && Waits(s, w, WaitSemaphore, i)
    requires m == s.sems[i].(gives := s.sems[i].gives + 1, takes := s.sems[i].takes + 1)
    ensures Inv(MaybePreempt(Wake(s.(sems := s.sems[i := m]), w, Ok), w))
  {
    SemStep(s, i, m);
    WakeKeepsInv(s.(sems := s.sems[i := m]), w, WaitSemaphore, i);
  }

  lemma GiveCountsKeeps(s: State, i: nat, m: Sem)
    requires Inv(s) && i < |s.sems| && NobodyWaits(s, WaitSemaphore, i) && s.sems[i].count < s.sems[i].maximum
    requires m == s.sems[i].(count := s.sems[i].count + 1, gives := s.sems[i].gives + 1)
    ensures Inv(s.(sems := s.sems[i := m]))
  {
    SemStep(s, i, m);
  }

  lemma GiveKeeps(s: State, i: nat)
    requires Inv(s) && i < |s.sems|
    ensures Inv(GiveCommon(s, i).s)
  {
    GiveCases(s, i);
    var m := s.sems[i];
    var found := FindWaiter(s, WaitSemaphore, i);
    if found.Some? {
      GiveToWaiterKeeps(s, i, found.value, m.(gives := m.gives + 1, takes := m.takes + 1));
    } else if m.count < m.maximum {
      GiveCountsKeeps(s, i, m.(count := m.count + 1, gives := m.gives + 1));
    }
  }

  lemma GiveCases(s: State, i: nat)
    requires s.current < |s.tasks| && i < |s.sems|
    ensures var m, found := s.sems[i], FindWaiter(s, WaitSemaphore, i);
      GiveCommon(s, i).s ==
        if found.Some? then
          var m' := m.(gives := m.gives + 1, takes := m.takes + 1);
          MaybePreempt(Wake(s.(sems := s.sems[i := m']), found.value, Ok), found.value)
        else if m.count < m.maximum then
          s.(sems := s.sems[i := m.(count := m.count + 1, gives := m.gives + 1)])
        else s
  {
  }

  // ----- queues -----

  lemma QueueStep(s: State, q: nat, f: Fifo)
    requires Inv(s) && q < |s.queues| && FifoOk(f)
    requires f.capacity == s.queues[q].capacity && f.itemSize == s.queues[q].itemSize
    requires forall i :: i in s.queues[q].delivered ==> i in f.delivered
    requires f.items != [] ==> NobodyWaits(s, WaitQueueReceive, q)
    requires |f.items| < f.capacity ==> NobodyWaits(s, WaitQueueSend, q)
    ensures Inv(s.(queues := s.queues[q := f]))
  {
    var s' := s.(queues := s.queues[q := f]);
    assert forall t, x, y :: 0 <= t < |s.tasks| ==> Waits(s', t, x, y) == Waits(s, t, x, y);
    assert SemInv(s');
    assert QueueInv(s');
    ObjectStep(s, s');
  }

  /** The direct hand-off, before the request for a switch. */
  function Handed(s: State, q: nat, item: Item, r: nat): State
    requires q < |s.queues| && r < |s.tasks|
  {
    Wake(HandOffItem(s, q, item, r), r, Ok)
  }

  ghost predicate MayHandOff(s: State, q: nat, item: Item, r: nat) {
    q < |s.queues| && r < |s.tasks| && Waits(s, r, WaitQueueReceive, q) && |item| == s.queues[q].itemSize
  }

  lemma HandedWaiters(s: State, q: nat, item: Item, r: nat)
    requires MayHandOff(s, q, item, r)
    ensures forall t, x, y :: 0 <= t < |s.tasks| && Waits(Handed(s, q, item, r), t, x, y) ==>
      t != r && Waits(s, t, x, y)
  {
  }

  lemma HandOffKeepsRun(s: State, q: nat, item: Item, r: nat)
    requires MayHandOff(s, q, item, r) && RunInv(s) && WaitInv(s)
    ensures RunInv(Handed(s, q, item, r)) && WaitInv(Handed(s, q, item, r))
  {
    var s' := Handed(s, q, item, r);
    assert forall wt, o :: ObjectExists(s', wt, o) == ObjectExists(s, wt, o);
  }

  lemma HandOffKeepsObjects(s: State, q: nat, item: Item, r: nat)
    requires MayHandOff(s, q, item, r) && MutexInv(s) && SemInv(s) && QueueInv(s)
    ensures MutexInv(Handed(s, q, item, r)) && SemInv(Handed(s, q, item, r)) && QueueInv(Handed(s, q, item, r))
  {
    HandedWaiters(s, q, item, r);
    var f := s.queues[q];
    assert f.items == [];
    assert FifoOk(Handed(s, q, item, r).queues[q]);
  }

  lemma HandOffKeepsTime(s: State, q: nat, item: Item, r: nat)
    requires MayHandOff(s, q, item, r) && TimeInv(s) && OrderInv(s)
    ensures TimeInv(Handed(s, q, item, r)) && OrderInv(Handed(s, q, item, r))
  {
  }

  lemma HandOffKeepsCalls(s: State, q: nat, item: Item, r: nat)
    requires MayHandOff(s, q, item, r) && CallInv(s) && GrantInv(s) && ItemInv(s)
    ensures CallInv(Handed(s, q, item, r)) && GrantInv(Handed(s, q, item, r)) && ItemInv(Handed(s, q, item, r))
  {
    var s' := Handed(s, q, item, r);
    assert s.tasks[r].past.call == Some(Call(WaitQueueReceive, q));
    assert forall t, x, y :: 0 <= t < |s.tasks| && Ended(s'.tasks[t], x, y) ==>
      (t == r && x == WaitQueueReceive && y == q) || (t != r && Ended(s.tasks[t], x, y));
    forall t, p | 0 <= t < |s.tasks| && 0 <= p < |s.queues| && Ended(s'.tasks[t], WaitQueueReceive, p)
      ensures ReceivedOk(s'.tasks[t], s'.queues[p])
    {
      if t != r {
        assert ReceivedOk(s.tasks[t], s.queues[p]);
      }
    }
  }

  lemma HandOffKeepsInv(s: State, q: nat, item: Item, r: nat)
    requires MayHandOff(s, q, item, r) && Inv(s)
    ensures Inv(MaybePreempt(Handed(s, q, item, r), r))
  {
    hide WaitInv, MutexInv, SemInv, QueueInv, TimeInv, OrderInv, CallInv, GrantInv, ItemInv;
    var s' := Handed(s, q, item, r);
    HandOffKeepsRun(s, q, item, r);
    HandOffKeepsObjects(s, q, item, r);
    HandOffKeepsTime(s, q, item, r);
    HandOffKeepsCalls(s, q, item, r);
    SameGraphSamePriorities(s, s');
    RequestKeepsInv(s', MaybePreempt(s', r));
  }

  lemma SendCommonKeeps(s: State, q: nat, item: Item)
    requires Inv(s) && q < |s.queues| && |item| == s.queues[q].itemSize
    ensures Inv(SendCommon(s, q, item).s)
  {
    var f := s.queues[q];
    match FindWaiter(s, WaitQueueReceive, q)
    case Some(r) =>
      HandOffKeepsInv(s, q, item, r);
    case None =>
      if |f.items| < f.capacity {
        assert NobodyWaits(s, WaitQueueSend, q);
        QueueStep(s, q, f.(items := f.items + [item], accepted := f.accepted + [item]));
      }
  }

  lemma FifoPops(f: Fifo, g: Fifo)
    requires FifoOk(f) && f.items != []
    requires g == f.(items := f.items[1..], delivered := f.delivered + [f.items[0]])
    ensures FifoOk(g)
  {
    assert f.items == [f.items[0]] + f.items[1..];
  }

  lemma FifoRefills(f: Fifo, g: Fifo, item: Item)
    requires FifoOk(f) && |f.items| < f.capacity && |item| == f.itemSize
    requires g == f.(items := f.items + [item], accepted := f.accepted + [item])
    ensures FifoOk(g)
  {
  }

  lemma PopKeeps(s: State, q: nat)
    requires Inv(s) && q < |s.queues| && s.queues[q].items != [] && NobodyWaits(s, WaitQueueSend, q)
    ensures Inv(Pop(s, q))
  {
    FifoPops(s.queues[q], Pop(s, q).queues[q]);
    assert NobodyWaits(s, WaitQueueReceive, q);
    QueueStep(s, q, Pop(s, q).queues[q]);
  }

  /** One item out at the front, the blocked sender's item in at the back: still full. */
  lemma RefillKeeps(s: State, q: nat, w: nat, f: Fifo)
    requires Inv(s) && q < |s.queues| && s.queues[q].items != []
    requires w < |s.tasks| && Waits(s, w, WaitQueueSend, q)
    requires f == Push(Pop(s, q), q, s.tasks[w].buffer).queues[q]
    ensures Inv(s.(queues := s.queues[q := f]))
  {
    FifoPops(s.queues[q], Pop(s, q).queues[q]);
    FifoRefills(Pop(s, q).queues[q], f, s.tasks[w].buffer);
    assert NobodyWaits(s, WaitQueueReceive, q);
    QueueStep(s, q, f);
  }

  lemma ReceiveFromSenderKeeps(s: State, q: nat, w: nat)
    requires Inv(s) && q < |s.queues| && s.queues[q].items != []
    requires w < |s.tasks| && Waits(s, w, WaitQueueSend, q)
    ensures Inv(MaybePreempt(Wake(Push(Pop(s, q), q, s.tasks[w].buffer), w, Ok), w))
  {
    var refilled := Push(Pop(s, q), q, s.tasks[w].buffer);
    RefillKeeps(s, q, w, refilled.queues[q]);
    assert refilled == s.(queues := s.queues[q := refilled.queues[q]]);
    WakeKeepsInv(refilled, w, WaitQueueSend, q);
  }

  lemma ReceiveCases(s: State, q: nat)
    requires s.current < |s.tasks| && q < |s.queues|
    ensures s.queues[q].items == [] ==> ReceiveCommon(s, q).s == s
    ensures s.queues[q].items != [] ==>
      var found := FindWaiter(Pop(s, q), WaitQueueSend, q);
      if found.Some? then
        && found.value < |s.tasks| && Waits(s, found.value, WaitQueueSend, q)
        && ReceiveCommon(s, q).s
           == MaybePreempt(Wake(Push(Pop(s, q), q, s.tasks[found.value].buffer), found.value, Ok), found.value)
      else NobodyWaits(s, WaitQueueSend, q) && ReceiveCommon(s, q).s == Pop(s, q)
  {
    if s.queues[q].items != [] {
      assert forall t :: 0 <= t < |s.tasks| ==>
        Waits(Pop(s, q), t, WaitQueueSend, q) == Waits(s, t, WaitQueueSend, q);
    }
  }

  lemma ReceiveCommonKeeps(s: State, q: nat)
    requires Inv(s) && q < |s.queues|
    ensures Inv(ReceiveCommon(s, q).s)
  {
    ReceiveCases(s, q);
    if s.queues[q].items != [] {
      var found := FindWaiter(Pop(s, q), WaitQueueSend, q);
      if found.Some? {
        ReceiveFromSenderKeeps(s, q, found.value);
      } else {
        PopKeeps(s, q);
      }
    }
  }

  lemma SendKeeps(s: State, ctx: Context, q: nat, item: Item, timeout: Word)
    requires Inv(s) && q < |s.queues| && |item| == s.queues[q].itemSize
    requires ctx.ThreadMode? ==> ThreadMayCall(s)
    ensures Inv(Send(s, ctx, q, item, timeout).s)
  {
    SendCommonKeeps(s, q, item);
    var r := SendCommon(s, q, item);
    if r.reply == Returned(ErrBusy, []) && TimeoutValid(timeout) && ctx.ThreadMode? && timeout != 0 {
      BlockKeepsInv(s, WaitQueueSend, q, item, timeout);
    }
  }

  lemma ReceiveKeeps(s: State, ctx: Context, q: nat, timeout: Word)
    requires Inv(s) && q < |s.queues| && (ctx.ThreadMode? ==> ThreadMayCall(s))
    ensures Inv(Receive(s, ctx, q, timeout).s)
  {
    ReceiveCommonKeeps(s, q);
    var r := ReceiveCommon(s, q);
    if r.reply == Returned(ErrBusy, []) && TimeoutValid(timeout) && ctx.ThreadMode? && timeout != 0 {
      BlockKeepsInv(s, WaitQueueReceive, q, [], timeout);
    }
  }
}
