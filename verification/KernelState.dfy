/** The kernel state as plain values: what the C objects hold, plus the history (unbounded clocks,
    logs and counters) that the properties are stated over. */
module KernelState {
  import opened Collections
  import opened Words
  import opened Inheritance

  /** RTOS_Status_t */
  datatype Status = Ok | ErrInvalid | ErrTimeout | ErrState | ErrBusy | ErrNotOwner | ErrLimit

  /** RTOS_TaskState_t */
  datatype TaskState = Ready | Running | Delayed | Blocked | Terminated

  /** RTOS_WaitType_t */
  datatype WaitType = WaitNone | WaitSemaphore | WaitMutex | WaitQueueSend | WaitQueueReceive

  /** RTOS_FaultReason_t; a fault is terminal. */
  datatype Fault = FaultNone | FaultStack | FaultKernelInvariant | FaultTaskReturnWithMutex

  type Item = seq<Byte>

  /** A blocking call that has been started and not yet returned to its caller. */
  datatype Call = Call(waitType: WaitType, on: nat)

  /** What has happened to a task so far.
      deadline: the unbounded tick at which its current delay or timeout ends.
      blockedAt: the unbounded sequence number of its latest blocking call.
      blocks, grants, timeouts: how often it blocked and how those waits ended.
      granted: whether the latest wait to end was granted. */
  datatype Past = Past(deadline: nat, blockedAt: nat, call: Option<Call>,
                       blocks: nat, grants: nat, timeouts: nat, granted: bool)

  /** RTOS_Task_t; objects are named by their position in the table of their kind. `buffer` is the
      content of the memory behind wait_buffer. */
  datatype Tcb = Tcb(state: TaskState, base: nat, eff: nat,
                     waitType: WaitType, waitObject: Option<nat>, buffer: Item,
                     wakeTick: Word, waitForever: bool, waitSequence: Word, waitResult: Status,
                     holds: Byte, past: Past)

  /** RTOS_Semaphore_t, with its initial count and the numbers of gives and takes granted. */
  datatype Sem = Sem(count: nat, maximum: nat, initial: nat, gives: nat, takes: nat)

  /** RTOS_Queue_t as the items it holds, with the log of all items accepted and delivered. */
  datatype Fifo = Fifo(capacity: nat, itemSize: nat, items: seq<Item>,
                       accepted: seq<Item>, delivered: seq<Item>)

  /** The whole kernel. `mutexes[m]` is the owner of mutex m; `pending` is the PendSV request bit;
      `now` and `blockCount` are the unbounded values of `ticks` and `waitSequence`. */
  datatype State = State(tasks: seq<Tcb>, sems: seq<Sem>, mutexes: seq<Option<nat>>, queues: seq<Fifo>,
                         current: nat, cursor: seq<nat>, waitSequence: Word, ticks: Word,
                         pending: bool, fault: Fault, now: nat, blockCount: nat)

  ghost predicate ObjectExists(s: State, wt: WaitType, o: nat) {
    match wt
    case WaitNone => false
    case WaitSemaphore => o < |s.sems|
    case WaitMutex => o < |s.mutexes|
    case WaitQueueSend => o < |s.queues|
    case WaitQueueReceive => o < |s.queues|
  }

  /** All indices are in range. */
  ghost predicate WellFormed(s: State) {
    && 0 < |s.tasks| <= 256
    && s.current < |s.tasks|
    && (forall p :: 0 <= p < |s.cursor| ==> s.cursor[p] < |s.tasks|)
    && (forall t :: 0 <= t < |s.tasks| ==> s.tasks[t].base < |s.cursor| && s.tasks[t].eff < |s.cursor|)
    && (forall t :: 0 <= t < |s.tasks| && s.tasks[t].waitObject.Some? ==>
          ObjectExists(s, s.tasks[t].waitType, s.tasks[t].waitObject.value))
    && (forall m :: 0 <= m < |s.mutexes| && s.mutexes[m].Some? ==> s.mutexes[m].value < |s.tasks|)
  }

  predicate Runnable(k: Tcb) {
    k.state == Ready || k.state == Running
  }

  /** A control block as task creation leaves it. */
  ghost predicate FreshTcb(k: Tcb) {
    && k.state == Ready && k.eff == k.base && k.waitType == WaitNone && k.waitObject == None
    && !k.waitForever && k.waitResult == Ok && k.holds == 0
    && k.past == Past(0, 0, None, 0, 0, 0, false)
  }

  /** Task t is blocked on object o with wait type wt. */
  predicate Waits(s: State, t: nat, wt: WaitType, o: nat)
    requires t < |s.tasks|
  {
    s.tasks[t].state == Blocked && s.tasks[t].waitType == wt && s.tasks[t].waitObject == Some(o)
  }

  ghost predicate NobodyWaits(s: State, wt: WaitType, o: nat) {
    forall t :: 0 <= t < |s.tasks| ==> !Waits(s, t, wt, o)
  }

  // ----- the mutex wait graph of a state -----

  /** The owner of the mutex that t is blocked on. */
  function Edge(s: State, t: nat): Option<nat>
    requires t < |s.tasks|
  {
    var k := s.tasks[t];
    if k.state == Blocked && k.waitType == WaitMutex && k.waitObject.Some? && k.waitObject.value < |s.mutexes|
    then s.mutexes[k.waitObject.value]
    else None
  }

  ghost function Edges(s: State): (r: seq<Option<nat>>)
    ensures |r| == |s.tasks| && forall t :: 0 <= t < |s.tasks| ==> r[t] == Edge(s, t)
  {
    seq(|s.tasks|, t requires 0 <= t < |s.tasks| => Edge(s, t))
  }

  ghost function Bases(s: State): (r: seq<nat>)
    ensures |r| == |s.tasks| && forall t :: 0 <= t < |s.tasks| ==> r[t] == s.tasks[t].base
  {
    seq(|s.tasks|, t requires 0 <= t < |s.tasks| => s.tasks[t].base)
  }

  ghost function Effs(s: State): (r: seq<nat>)
    ensures |r| == |s.tasks| && forall t :: 0 <= t < |s.tasks| ==> r[t] == s.tasks[t].eff
  {
    seq(|s.tasks|, t requires 0 <= t < |s.tasks| => s.tasks[t].eff)
  }

  // ----- primitives -----

  /** rtos_kernel_wake_task on one control block. */
  function WakeTcb(k: Tcb, result: Status): Tcb {
    k.(waitResult := result, waitType := WaitNone, waitObject := None, waitForever := false, state := Ready,
       past := k.past.(grants := k.past.grants + (if result == Ok then 1 else 0),
                       timeouts := k.past.timeouts + (if result == Ok then 0 else 1),
                       granted := result == Ok))
  }

  function Wake(s: State, t: nat, result: Status): State
    requires t < |s.tasks|
  {
    s.(tasks := s.tasks[t := WakeTcb(s.tasks[t], result)])
  }

  /** rtos_kernel_block_current with a valid timeout. */
  function BlockTcb(s: State, k: Tcb, wt: WaitType, o: nat, buffer: Item, timeout: Word): Tcb {
    var forever := timeout == WAIT_FOREVER;
    k.(waitType := wt, waitObject := Some(o), buffer := buffer,
       waitSequence := Wrap32(s.waitSequence + 1), waitResult := Ok, waitForever := forever,
       wakeTick := if forever then k.wakeTick else Wrap32(s.ticks + timeout), state := Blocked,
       past := k.past.(deadline := if forever then k.past.deadline else s.now + timeout,
                       blockedAt := s.blockCount + 1, call := Some(Call(wt, o)),
                       blocks := k.past.blocks + 1))
  }

  function Block(s: State, wt: WaitType, o: nat, buffer: Item, timeout: Word): State
    requires s.current < |s.tasks|
  {
    s.(tasks := s.tasks[s.current := BlockTcb(s, s.tasks[s.current], wt, o, buffer, timeout)],
       waitSequence := Wrap32(s.waitSequence + 1), blockCount := s.blockCount + 1, pending := true)
  }

  /** rtos_kernel_find_waiter keeps the better of the best so far and the next candidate. */
  predicate Better(c: Tcb, best: Tcb) {
    c.eff > best.eff || (c.eff == best.eff && SignedLess(c.waitSequence, best.waitSequence))
  }

  /** The choice of rtos_kernel_find_waiter among the first k tasks. */
  function BestWaiter(s: State, wt: WaitType, o: nat, k: nat): (r: Option<nat>)
    requires k <= |s.tasks|
    ensures r.Some? ==> r.value < k
  {
    if k == 0 then None
    else
      var best := BestWaiter(s, wt, o, k - 1);
      if Waits(s, k - 1, wt, o) && (best.None? || Better(s.tasks[k - 1], s.tasks[best.value]))
      then Some(k - 1) else best
  }

  /** However the sequence numbers compare, the choice is a waiter of the highest priority. */
  lemma {:induction false} BestWaiterIsHighest(s: State, wt: WaitType, o: nat, k: nat)
    requires k <= |s.tasks|
    ensures var r := BestWaiter(s, wt, o, k);
      && (r.Some? ==> Waits(s, r.value, wt, o))
      && (r.Some? ==> forall t :: 0 <= t < k && Waits(s, t, wt, o) ==> s.tasks[t].eff <= s.tasks[r.value].eff)
      && (r.None? ==> forall t :: 0 <= t < k ==> !Waits(s, t, wt, o))
  {
    if k > 0 {
      BestWaiterIsHighest(s, wt, o, k - 1);
    }
  }

  function FindWaiter(s: State, wt: WaitType, o: nat): (r: Option<nat>)
    ensures r.Some? ==> r.value < |s.tasks| && Waits(s, r.value, wt, o)
    ensures r.Some? ==>
      forall t :: 0 <= t < |s.tasks| && Waits(s, t, wt, o) ==> s.tasks[t].eff <= s.tasks[r.value].eff
    ensures r.None? ==> NobodyWaits(s, wt, o)
  {
    BestWaiterIsHighest(s, wt, o, |s.tasks|);
    BestWaiter(s, wt, o, |s.tasks|)
  }

  /** rtos_maybe_preempt */
  function MaybePreempt(s: State, t: nat): State
    requires t < |s.tasks| && s.current < |s.tasks|
  {
    s.(pending := s.pending || s.tasks[t].eff > s.tasks[s.current].eff)
  }

  /** What rtos_kernel_recompute_priorities is for: every effective priority becomes the maximum
      base priority over the tasks that reach the task through mutex waits. */
  ghost function Recompute(s: State): (r: State)
    ensures |r.tasks| == |s.tasks|
    ensures r == s.(tasks := r.tasks)
    ensures forall t :: 0 <= t < |s.tasks| ==>
      r.tasks[t] == s.tasks[t].(eff := InheritedAll(Bases(s), Edges(s))[t])
  {
    s.(tasks := seq(|s.tasks|, t requires 0 <= t < |s.tasks| =>
                      s.tasks[t].(eff := InheritedAll(Bases(s), Edges(s))[t])))
  }

  // ----- selection -----

  /** How far index i lies after the cursor c in cyclic order, 0 being the next one. */
  function CyclicDistance(n: nat, c: nat, i: nat): (d: nat)
    requires c < n && i < n
  {
    if i > c then i - c - 1 else i + n - c - 1
  }

  /** Task i is what rtos_select_next must pick: of maximal priority, and first after the cursor
      of its level among the runnable tasks of that level. */
  ghost predicate IsSelected(s: State, i: nat)
    requires WellFormed(s)
  {
    && i < |s.tasks| && Runnable(s.tasks[i])
    && forall j :: 0 <= j < |s.tasks| && Runnable(s.tasks[j]) ==>
         && s.tasks[j].eff <= s.tasks[i].eff
         && (s.tasks[j].eff == s.tasks[i].eff ==>
               CyclicDistance(|s.tasks|, s.cursor[s.tasks[i].eff], i)
                 <= CyclicDistance(|s.tasks|, s.cursor[s.tasks[i].eff], j))
  }

  ghost predicate AnyRunnable(s: State) {
    exists i :: 0 <= i < |s.tasks| && Runnable(s.tasks[i])
  }

  lemma SelectedUnique(s: State, i: nat, j: nat)
    requires WellFormed(s) && IsSelected(s, i) && IsSelected(s, j)
    ensures i == j
  {
  }

  /** Some task with property P at the least distance after the cursor exists: search outward. */
  lemma SelectedExists(s: State)
    requires WellFormed(s) && AnyRunnable(s)
    ensures exists i :: IsSelected(s, i)
  {
    var i: nat :| i < |s.tasks| && Runnable(s.tasks[i]);
    i := HighestRunnable(s, |s.tasks|, i);
    i := NearestRunnable(s, |s.tasks|, i);
    assert IsSelected(s, i);
  }

  lemma {:induction false} HighestRunnable(s: State, k: nat, seed: nat) returns (i: nat)
    requires k <= |s.tasks| && seed < |s.tasks| && Runnable(s.tasks[seed])
    ensures i < |s.tasks| && Runnable(s.tasks[i]) && s.tasks[seed].eff <= s.tasks[i].eff
    ensures forall j :: 0 <= j < k && Runnable(s.tasks[j]) ==> s.tasks[j].eff <= s.tasks[i].eff
  {
    if k == 0 {
      i := seed;
    } else {
      i := HighestRunnable(s, k - 1, seed);
      if Runnable(s.tasks[k - 1]) && s.tasks[k - 1].eff > s.tasks[i].eff {
        i := k - 1;
      }
    }
  }

  lemma {:induction false} NearestRunnable(s: State, k: nat, seed: nat) returns (i: nat)
    requires WellFormed(s) && k <= |s.tasks| && seed < |s.tasks| && Runnable(s.tasks[seed])
    ensures i < |s.tasks| && Runnable(s.tasks[i]) && s.tasks[i].eff == s.tasks[seed].eff
    ensures forall j :: 0 <= j < k && Runnable(s.tasks[j]) && s.tasks[j].eff == s.tasks[seed].eff ==>
      CyclicDistance(|s.tasks|, s.cursor[s.tasks[seed].eff], i)
        <= CyclicDistance(|s.tasks|, s.cursor[s.tasks[seed].eff], j)
  {
    var c := s.cursor[s.tasks[seed].eff];
    if k == 0 {
      i := seed;
    } else {
      i := NearestRunnable(s, k - 1, seed);
      if Runnable(s.tasks[k - 1]) && s.tasks[k - 1].eff == s.tasks[seed].eff
         && CyclicDistance(|s.tasks|, c, k - 1) < CyclicDistance(|s.tasks|, c, i) {
        i := k - 1;
      }
    }
  }

  /** The task rtos_select_next picks. */
  ghost function Selected(s: State): (i: nat)
    requires WellFormed(s) && AnyRunnable(s)
    ensures IsSelected(s, i)
  {
    SelectedExists(s);
    var w :| IsSelected(s, w);
    w
  }
}
