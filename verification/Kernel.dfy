/** The kernel as it runs: control blocks updated in place by loops over the task table. Every
    method is proved to take the step that module KernelSpec describes. */
module KernelCode {
  import opened Collections
  import opened Words
  import opened Inheritance
  import opened KernelState
  import opened KernelSpec
  import opened Ring
  import opened Objects
  import opened Invariant
  import SchedulePreserve

  class Kernel {
    /** rtos_tasks[0 .. rtos_task_count), the idle task first, and the application's objects. */
    const tasks: seq<Task>
    const sems: seq<Semaphore>
    const mutexes: seq<Mutex>
    const queues: seq<Queue>

    var current: Task
    const cursor: array<nat>
    var waitSequence: Word
    var ticks: Word
    var switchPending: bool
    var fault: Fault
    ghost var now: nat
    ghost var blockCount: nat

    ghost predicate HasTask(t: Task) {
      t.id < |tasks| && tasks[t.id] == t
    }

    ghost predicate HasObject(wt: WaitType, o: object) {
      match wt
      case WaitNone => false
      case WaitSemaphore => o is Semaphore && (o as Semaphore).id < |sems| && sems[(o as Semaphore).id] == o
      case WaitMutex => o is Mutex && (o as Mutex).id < |mutexes| && mutexes[(o as Mutex).id] == o
      case WaitQueueSend => o is Queue && (o as Queue).id < |queues| && queues[(o as Queue).id] == o
      case WaitQueueReceive => o is Queue && (o as Queue).id < |queues| && queues[(o as Queue).id] == o
    }

    /** The tables are numbered, every pointer leads into them, and the queue storages are disjoint. */
    ghost predicate Linked()
      reads this, cursor, tasks, sems, mutexes, queues
    {
      && (forall t :: 0 <= t < |tasks| ==> tasks[t].id == t)
      && (forall i :: 0 <= i < |sems| ==> sems[i].id == i)
      && (forall m :: 0 <= m < |mutexes| ==> mutexes[m].id == m)
      && (forall q :: 0 <= q < |queues| ==> queues[q].id == q && queues[q].Valid())
      && (forall p, q :: 0 <= p < q < |queues| ==> queues[p].storage != queues[q].storage)
      && HasTask(current)
      && (forall m :: 0 <= m < |mutexes| && mutexes[m].owner != null ==> HasTask(mutexes[m].owner))
      && (forall t :: 0 <= t < |tasks| ==> WaitLinked(tasks[t]))
    }

    /** A wait object is of the right kind, and a sender's buffer holds one item of its queue. */
    ghost predicate WaitLinked(t: Task)
      reads t, queues
    {
      t.waitObject != null ==>
        && HasObject(t.waitType, t.waitObject)
        && (t.waitType == WaitQueueSend ==>
              queues[(t.waitObject as Queue).id].itemSize == |t.waitBuffer|)
    }

    ghost function Storages(): set<object>
      reads queues`storage
    {
      set q | q in queues :: q.storage
    }

    twostate lemma StoragesKept()
      requires forall q :: q in queues ==> q.storage == old(q.storage)
      ensures Storages() == old(Storages())
    {
    }

    ghost function TaskViews(): (r: seq<Tcb>)
      reads tasks
      ensures |r| == |tasks| && forall t :: 0 <= t < |tasks| ==> r[t] == tasks[t].View()
    {
      seq(|tasks|, t requires 0 <= t < |tasks| reads tasks => tasks[t].View())
    }

    ghost function SemViews(): (r: seq<Sem>)
      reads sems
      ensures |r| == |sems| && forall i :: 0 <= i < |sems| ==> r[i] == sems[i].View()
    {
      seq(|sems|, i requires 0 <= i < |sems| reads sems => sems[i].View())
    }

    ghost function MutexViews(): (r: seq<Option<nat>>)
      reads mutexes
      ensures |r| == |mutexes| && forall m :: 0 <= m < |mutexes| ==> r[m] == mutexes[m].View()
    {
      seq(|mutexes|, m requires 0 <= m < |mutexes| reads mutexes => mutexes[m].View())
    }

    ghost function QueueViews(): (r: seq<Fifo>)
      requires forall q :: q in queues ==> q.Valid()
      reads queues, Storages()
      ensures |r| == |queues| && forall q :: 0 <= q < |queues| ==> r[q] == queues[q].View()
    {
      seq(|queues|, q requires 0 <= q < |queues| && queues[q].Valid() reads queues, Storages() => queues[q].View())
    }

    ghost function View(): State
      requires Linked()
      reads this, cursor, tasks, sems, mutexes, queues, Storages()
    {
      State(TaskViews(), SemViews(), MutexViews(), QueueViews(), current.id, cursor[..], waitSequence, ticks,
            switchPending, fault, now, blockCount)
    }

    ghost predicate Valid()
      reads this, cursor, tasks, sems, mutexes, queues, Storages()
    {
      Linked() && WellFormed(View())
    }

    /** What happens elsewhere does not reach the kernel's data. */
    twostate lemma Kept()
      requires old(Valid())
      requires unchanged(this, cursor, tasks, sems, mutexes, queues) && unchanged(old(Storages()))
      ensures Valid() && View() == old(View()) && Storages() == old(Storages())
    {
    }

    // ----- what a change of one object does to the view -----

    twostate predicate ObjectsKept()
      reads this, cursor, sems, mutexes, queues, Storages()
    {
      && (forall i :: 0 <= i < |sems| ==> unchanged(sems[i]))
      && (forall m :: 0 <= m < |mutexes| ==> unchanged(mutexes[m]))
      && (forall q :: 0 <= q < |queues| ==> unchanged(queues[q]))
      && (forall q :: 0 <= q < |queues| ==> unchanged(queues[q].storage))
    }

    twostate lemma ObjectViewsKept()
      requires old(Linked()) && ObjectsKept()
      ensures forall q :: 0 <= q < |queues| ==> queues[q].Valid()
      ensures SemViews() == old(SemViews()) && MutexViews() == old(MutexViews()) && QueueViews() == old(QueueViews())
    {
    }

    /** A change of one control block shows as a change of one entry of the task table. */
    twostate lemma TaskChanged(task: Task)
      requires old(Linked()) && HasTask(task) && unchanged(this) && unchanged(cursor) && ObjectsKept()
      requires forall t :: 0 <= t < |tasks| && tasks[t] != task ==> unchanged(tasks[t])
      requires WaitLinked(task)
      ensures Linked()
      ensures View() == old(View()).(tasks := old(TaskViews())[task.id := task.View()])
    {
      ObjectViewsKept();
      assert TaskViews() == old(TaskViews())[task.id := task.View()];
    }

    /** A change of one semaphore shows as a change of one entry of its table. */
    twostate lemma SemaphoreChanged(sem: Semaphore)
      requires old(Linked()) && HasObject(WaitSemaphore, sem) && unchanged(this) && unchanged(cursor)
      requires forall t :: 0 <= t < |tasks| ==> unchanged(tasks[t])
      requires forall i :: 0 <= i < |sems| && sems[i] != sem ==> unchanged(sems[i])
      requires forall m :: 0 <= m < |mutexes| ==> unchanged(mutexes[m])
      requires forall q :: 0 <= q < |queues| ==> unchanged(queues[q]) && unchanged(queues[q].storage)
      ensures Linked() && View() == old(View()).(sems := old(SemViews())[sem.id := sem.View()])
    {
      assert TaskViews() == old(TaskViews()) && MutexViews() == old(MutexViews()) && QueueViews() == old(QueueViews());
      assert SemViews() == old(SemViews())[sem.id := sem.View()];
    }

    twostate lemma MutexChanged(mutex: Mutex)
      requires old(Linked()) && HasObject(WaitMutex, mutex) && unchanged(this) && unchanged(cursor)
      requires mutex.owner != null ==> HasTask(mutex.owner)
      requires forall t :: 0 <= t < |tasks| ==> unchanged(tasks[t])
      requires forall i :: 0 <= i < |sems| ==> unchanged(sems[i])
      requires forall m :: 0 <= m < |mutexes| && mutexes[m] != mutex ==> unchanged(mutexes[m])
      requires forall q :: 0 <= q < |queues| ==> unchanged(queues[q]) && unchanged(queues[q].storage)
      ensures Linked() && View() == old(View()).(mutexes := old(MutexViews())[mutex.id := mutex.View()])
    {
      assert TaskViews() == old(TaskViews()) && SemViews() == old(SemViews()) && QueueViews() == old(QueueViews());
      assert MutexViews() == old(MutexViews())[mutex.id := mutex.View()];
    }

    /** A change of one queue, storage included, shows as a change of one entry of its table. */
    twostate lemma QueueChanged(queue: Queue)
      requires old(Linked()) && HasObject(WaitQueueSend, queue) && unchanged(this) && unchanged(cursor)
      requires queue.Valid() && queue.storage == old(queue.storage) && queue.itemSize == old(queue.itemSize)
      requires forall t :: 0 <= t < |tasks| ==> unchanged(tasks[t])
      requires forall i :: 0 <= i < |sems| ==> unchanged(sems[i])
      requires forall m :: 0 <= m < |mutexes| ==> unchanged(mutexes[m])
      requires forall q :: 0 <= q < |queues| && queues[q] != queue ==>
        unchanged(queues[q]) && unchanged(queues[q].storage)
      ensures Linked() && View() == old(View()).(queues := old(QueueViews())[queue.id := queue.View()])
    {
      forall t | 0 <= t < |tasks| ensures WaitLinked(tasks[t]) {
        assert old(WaitLinked(tasks[t]));
      }
      assert TaskViews() == old(TaskViews()) && SemViews() == old(SemViews()) && MutexViews() == old(MutexViews());
      assert QueueViews() == old(QueueViews())[queue.id := queue.View()];
    }

    /** A change of the current control block together with the kernel's own variables. */
    twostate lemma OwnTaskChanged(task: Task)
      requires old(Linked()) && HasTask(task) && HasTask(current) && ObjectsKept()
      requires forall t :: 0 <= t < |tasks| && tasks[t] != task ==> unchanged(tasks[t])
      requires WaitLinked(task)
      ensures Linked()
      ensures View() == old(View()).(tasks := old(TaskViews())[task.id := task.View()],
                                     current := current.id, cursor := cursor[..], waitSequence := waitSequence,
                                     ticks := ticks, pending := switchPending, fault := fault, now := now,
                                     blockCount := blockCount)
    {
      ObjectViewsKept();
      assert TaskViews() == old(TaskViews())[task.id := task.View()];
    }

    /** A change of the kernel's own variables leaves the tables as they are. */
    twostate lemma TablesKept()
      requires old(Linked()) && HasTask(current) && ObjectsKept()
      requires forall t :: 0 <= t < |tasks| ==> unchanged(tasks[t])
      ensures Linked()
      ensures View() == old(View()).(current := current.id, cursor := cursor[..], waitSequence := waitSequence,
                                     ticks := ticks, pending := switchPending, fault := fault, now := now,
                                     blockCount := blockCount)
    {
      ObjectViewsKept();
      assert TaskViews() == old(TaskViews());
    }

    // ----- primitives -----

    method WakeTask(task: Task, result: Status)
      requires Linked() && HasTask(task)
      modifies task
      ensures Linked() && View() == Wake(old(View()), task.id, result)
    {
      task.Wake(result);
      TaskChanged(task);
    }

    /** rtos_select_next: scans the levels downward and, within a level, the table from the task
        after the cursor on. Null means that nothing is runnable. */
    method SelectNext() returns (next: Task?)
      requires Valid()
      modifies cursor
      ensures Linked()
      ensures next != null <==> AnyRunnable(old(View()))
      ensures next == null ==> View() == old(View())
      ensures next != null ==>
        && HasTask(next) && next.id == Selected(old(View()))
        && View() == old(View()).(cursor := old(View()).cursor[next.effectivePriority := next.id])
    {
      ghost var s := View();
      var priority := cursor.Length - 1;
      while priority >= 0
        invariant -1 <= priority < cursor.Length
        invariant Linked() && View() == s && NoneAbove(s, priority)
      {
        next := ScanLevel(priority, s);
        if next != null {
          SelectedUnique(s, next.id, Selected(s));
          return next;
        }
        priority := priority - 1;
      }
      NothingRunnable(s);
      return null;
    }

    /** The inner loop of rtos_select_next: the first candidate of one level after its cursor. */
    method ScanLevel(priority: nat, ghost s: State) returns (next: Task?)
      requires Valid() && s == View() && priority < cursor.Length && NoneAbove(s, priority)
      modifies cursor
      ensures Linked()
      ensures next == null ==> View() == s && NoneAbove(s, priority - 1)
      ensures next != null ==>
        && HasTask(next) && next.effectivePriority == priority && IsSelected(s, next.id)
        && View() == s.(cursor := s.cursor[priority := next.id])
    {
      hide IsSelected, NoneAbove, SemViews, MutexViews, QueueViews;
      var start := cursor[priority];
      assert start == s.cursor[priority];
      var offset := 1;
      var index := start;
      next := null;
      while offset <= |tasks|
        modifies {}
        invariant 1 <= offset <= |tasks| + 1
        invariant NoneNearer(s, start, priority, offset - 1)
      {
        RingIndexIsModulo(start, offset, |tasks|);
        index := (start + offset) % |tasks|;
        var task := tasks[index];
        assert CyclicDistance(|tasks|, start, index) == offset - 1;
        assert s.tasks[index] == task.View();
        if (task.state == Ready || task.state == Running) && task.effectivePriority == priority {
          FirstIsSelected(s, start, priority, index);
          next := task;
          break;
        }
        NextDistance(s, start, priority, offset, index);
        offset := offset + 1;
      }
      if next != null {
        cursor[priority] := index;
        TablesKept();
      } else {
        NoneAtLevel(s, start, priority);
      }
    }

    /** rtos_kernel_block_current */
    method BlockCurrent(wt: WaitType, object_: object, buffer: Item, timeout: Word) returns (rc: Status)
      requires Linked() && HasObject(wt, object_)
      requires wt == WaitQueueSend ==> |buffer| == (object_ as Queue).itemSize
      modifies this`waitSequence, this`blockCount, this`switchPending, current
      ensures Linked() && ObjectId(object_).Some?
      ensures !TimeoutValid(timeout) ==> rc == ErrInvalid && View() == old(View())
      ensures TimeoutValid(timeout) ==>
        rc == Ok && View() == Block(old(View()), wt, ObjectId(object_).value, buffer, timeout)
    {
      ObjectNamed(wt, object_);
      if !TimeoutValid(timeout) {
        rc := ErrInvalid;
      } else {
        SuspendCurrent(wt, object_, buffer, timeout);
        rc := Ok;
      }
    }

    method SuspendCurrent(wt: WaitType, object_: object, buffer: Item, timeout: Word)
      requires Linked() && HasObject(wt, object_) && ObjectId(object_).Some?
      requires wt == WaitQueueSend ==> |buffer| == (object_ as Queue).itemSize
      modifies this`waitSequence, this`blockCount, this`switchPending, current
      ensures Linked() && View() == Block(old(View()), wt, ObjectId(object_).value, buffer, timeout)
    {
      FillBlocked(View(), wt, object_, buffer, timeout);
      hide BlockTcb;
      assert WaitLinked(current);
      OwnTaskChanged(current);
    }

    /** The writes of rtos_kernel_block_current. */
    method FillBlocked(ghost s: State, wt: WaitType, object_: object, buffer: Item, timeout: Word)
      requires ObjectId(object_).Some?
      requires s.waitSequence == waitSequence && s.ticks == ticks && s.now == now && s.blockCount == blockCount
      modifies this`waitSequence, this`blockCount, this`switchPending, current
      ensures current.View() == BlockTcb(s, old(current.View()), wt, ObjectId(object_).value, buffer, timeout)
      ensures current.waitObject == object_ && current.waitType == wt && current.waitBuffer == buffer
      ensures waitSequence == Wrap32(s.waitSequence + 1) && blockCount == s.blockCount + 1 && switchPending
    {
      ghost var k := BlockTcb(s, current.View(), wt, ObjectId(object_).value, buffer, timeout);
      waitSequence := (waitSequence + 1) % 0x1_0000_0000;
      blockCount := blockCount + 1;
      current.Block(wt, object_, buffer, waitSequence, timeout, ticks, k.past);
      switchPending := true;
    }

    lemma ObjectNamed(wt: WaitType, object_: object)
      requires HasObject(wt, object_)
      ensures ObjectId(object_).Some?
    {
    }

    /** rtos_kernel_find_waiter */
    method FindWaiterFor(wt: WaitType, object_: object) returns (best: Task?)
      requires Linked() && HasObject(wt, object_)
      ensures Linked() && View() == old(View()) && ObjectId(object_).Some?
      ensures var found := FindWaiter(View(), wt, ObjectId(object_).value);
        if best == null then found == None else HasTask(best) && found == Some(best.id)
    {
      AllWaitsFor(wt, object_);
      best := ScanWaiters(tasks, View(), wt, object_, ObjectId(object_).value);
      TablesKept();
    }

    /** Comparing pointers is comparing table entries. */
    lemma WaitsFor(wt: WaitType, object_: object, task: Task)
      requires Linked() && HasObject(wt, object_) && HasTask(task)
      ensures ObjectId(object_).Some?
      ensures Waits(View(), task.id, wt, ObjectId(object_).value)
         <==> task.state == Blocked && task.waitType == wt && task.waitObject == object_
    {
      assert View().tasks[task.id] == task.View();
    }

    lemma AllWaitsFor(wt: WaitType, object_: object)
      requires Linked() && HasObject(wt, object_)
      ensures ObjectId(object_).Some?
      ensures Shows(tasks, View()) && WaitsShow(tasks, View(), wt, object_, ObjectId(object_).value)
    {
      forall t | 0 <= t < |tasks|
        ensures View().tasks[t] == tasks[t].View() && tasks[t].id == t
        ensures Waits(View(), t, wt, ObjectId(object_).value)
           <==> tasks[t].state == Blocked && tasks[t].waitType == wt && tasks[t].waitObject == object_
      {
        WaitsFor(wt, object_, tasks[t]);
      }
    }

    /** rtos_kernel_should_preempt and the request that rtos_maybe_preempt makes. */
    method MaybePreemptFor(task: Task?)
      requires Linked() && (task != null ==> HasTask(task))
      modifies this`switchPending
      ensures Linked()
      ensures View() == if task == null then old(View()) else MaybePreempt(old(View()), task.id)
    {
      if task != null {
        assert View().tasks[task.id] == task.View() && View().tasks[current.id] == current.View();
        if task.effectivePriority > current.effectivePriority {
          switchPending := true;
        }
      }
      TablesKept();
    }

    // ----- priority inheritance -----

    method SetEffective(task: Task, priority: nat)
      requires Linked() && HasTask(task)
      modifies task`effectivePriority
      ensures Linked()
      ensures View() == old(View()).(tasks := old(TaskViews())[task.id := old(task.View()).(eff := priority)])
    {
      task.effectivePriority := priority;
      TaskChanged(task);
    }

    lemma EdgeOf(task: Task)
      requires Linked() && HasTask(task)
      ensures Edge(View(), task.id) ==
        if task.state == Blocked && task.waitType == WaitMutex && task.waitObject != null
           && (task.waitObject as Mutex).owner != null
        then Some((task.waitObject as Mutex).owner.id) else None
      ensures Edge(View(), task.id).Some? ==> HasTask((task.waitObject as Mutex).owner)
    {
      assert View().tasks[task.id] == task.View();
    }

    /** The first loop of rtos_kernel_recompute_priorities: back to the base priorities. */
    method ResetPriorities(ghost s: State)
      requires Linked() && s == View()
      modifies tasks
      ensures Linked() && View() == WithEffs(s, Bases(s))
    {
      var index := 0;
      WithOwnEffs(s);
      ResetStart(s);
      while index < |tasks|
        invariant 0 <= index <= |tasks|
        invariant Linked() && View() == WithEffs(s, ResetUpTo(s, index))
      {
        ResetTask(tasks[index], s, index);
        index := index + 1;
      }
      ResetEnd(s);
    }

    method ResetTask(task: Task, ghost s: State, ghost index: nat)
      requires Linked() && index < |tasks| && tasks[index] == task && |s.tasks| == |tasks|
      requires View() == WithEffs(s, ResetUpTo(s, index))
      modifies task`effectivePriority
      ensures Linked() && View() == WithEffs(s, ResetUpTo(s, index + 1))
    {
      assert View().tasks[index] == task.View();
      SetEffective(task, task.basePriority);
      WithOneMore(s, ResetUpTo(s, index), index, task.basePriority);
      ResetOneMore(s, index);
    }

    /** One pass over the table: every waiter lifts the owner of its mutex to its own priority. */
    method RelaxPass(ghost s: State, ghost e: seq<nat>, ghost top: seq<nat>) returns (changed: bool, ghost e': seq<nat>)
      requires Linked() && IsGraph(Bases(s), Edges(s)) && |top| == |e| == |s.tasks|
      requires View() == WithEffs(s, e)
      requires Sound(Bases(s), e, top) && Closed(Bases(s), Edges(s), top)
      modifies tasks
      ensures Linked() && |e'| == |e| && View() == WithEffs(s, e')
      ensures Sound(Bases(s), e', top)
      ensures PassDone(Edges(s), e, e', |e|) && (!changed ==> e' == e)
    {
      changed := false;
      e' := e;
      var index := 0;
      while index < |tasks|
        invariant 0 <= index <= |tasks|
        invariant Linked() && |e'| == |e| && View() == WithEffs(s, e')
        invariant Sound(Bases(s), e', top)
        invariant PassDone(Edges(s), e, e', index) && (!changed ==> e' == e)
      {
        var raised;
        raised, e' := RelaxTask(index, s, e, e', top);
        changed := changed || raised;
        index := index + 1;
      }
    }

    /** The body of the pass for one waiter. */
    method RelaxTask(index: nat, ghost s: State, ghost e0: seq<nat>, ghost e: seq<nat>, ghost top: seq<nat>)
      returns (raised: bool, ghost e': seq<nat>)
      requires Linked() && IsGraph(Bases(s), Edges(s)) && |top| == |e0| == |e| == |s.tasks| && index < |tasks|
      requires View() == WithEffs(s, e)
      requires Sound(Bases(s), e, top) && Closed(Bases(s), Edges(s), top) && PassDone(Edges(s), e0, e, index)
      modifies tasks
      ensures Linked() && |e'| == |e| && View() == WithEffs(s, e')
      ensures Sound(Bases(s), e', top)
      ensures PassDone(Edges(s), e0, e', index + 1) && (!raised ==> e' == e)
    {
      raised, e' := false, e;
      var waiter := tasks[index];
      EdgeOf(waiter);
      EdgesOfWithEffs(s, e);
      assert View().tasks[index] == waiter.View();
      if waiter.state == Blocked && waiter.waitType == WaitMutex {
        if waiter.waitObject != null {
          var mutex := waiter.waitObject as Mutex;
          if mutex.owner != null {
            assert View().tasks[mutex.owner.id] == mutex.owner.View();
            if mutex.owner.effectivePriority < waiter.effectivePriority {
              ghost var o := mutex.owner.id;
              RelaxSound(Bases(s), Edges(s), e, top, index);
              PassRaises(Edges(s), e0, e, index);
              WithOneMore(s, e, o, e[index]);
              SetEffective(mutex.owner, waiter.effectivePriority);
              e' := e[o := e[index]];
              raised := true;
              return;
            }
          }
        }
      }
      PassSkips(Edges(s), e0, e, index);
    }

    /** At most n passes, stopping at a quiet one. */
    method RelaxAll(ghost s: State, ghost base: seq<nat>, ghost next: seq<Option<nat>>)
      requires base == Bases(s) && next == Edges(s) && IsGraph(base, next) && |tasks| == |s.tasks|
      requires Linked() && View() == WithEffs(s, base)
      modifies tasks
      ensures Linked() && View() == WithEffs(s, InheritedAll(base, next))
    {
      hide *;
      ghost var e := base;
      RelaxStarts(s, base, next);
      var pass := 0;
      while pass < |tasks|
        invariant 0 <= pass <= |tasks| && |e| == |s.tasks|
        invariant Linked() && View() == WithEffs(s, e) && Relaxed(s, base, next, e, pass)
      {
        var changed;
        changed, e := OnePass(s, base, next, e, pass);
        if !changed {
          break;
        }
        pass := pass + 1;
      }
      RelaxEnds(s, base, next, e);
    }

    /** After k passes the priorities are sound and cover all chains of k edges. */
    ghost predicate Relaxed(s: State, base: seq<nat>, next: seq<Option<nat>>, e: seq<nat>, k: nat) {
      && base == Bases(s) && next == Edges(s) && IsGraph(base, next) && |e| == |base|
      && Sound(base, e, InheritedAll(base, next)) && CoversPaths(base, next, e, k)
    }

    lemma RelaxStarts(s: State, base: seq<nat>, next: seq<Option<nat>>)
      requires base == Bases(s) && next == Edges(s) && IsGraph(base, next)
      ensures Relaxed(s, base, next, base, 0)
    {
      InheritedClosed(base, next);
      LeastAtBase(base, next, InheritedAll(base, next));
    }

    lemma RelaxEnds(s: State, base: seq<nat>, next: seq<Option<nat>>, e: seq<nat>)
      requires |e| == |base| == |next|
      requires e == InheritedAll(base, next) || Relaxed(s, base, next, e, |base|)
      ensures e == InheritedAll(base, next)
    {
      if Relaxed(s, base, next, e, |base|) {
        AllPassesResult(base, next, e);
      }
    }

    method OnePass(ghost s: State, ghost base: seq<nat>, ghost next: seq<Option<nat>>, ghost e: seq<nat>, ghost k: nat)
      returns (changed: bool, ghost e': seq<nat>)
      requires |e| == |s.tasks| && |base| == |next| == |s.tasks|
      requires Linked() && View() == WithEffs(s, e) && Relaxed(s, base, next, e, k)
      modifies tasks
      ensures |e'| == |s.tasks|
      ensures Linked() && View() == WithEffs(s, e') && Relaxed(s, base, next, e', k + 1)
      ensures !changed ==> e' == InheritedAll(base, next)
    {
      hide Sound, CoversPaths, InheritedAll, IsGraph, Closed, PassDone;
      InheritedClosed(base, next);
      changed, e' := RelaxPass(s, e, InheritedAll(base, next));
      PassResult(base, next, e, e', k, changed);
    }

    /** rtos_kernel_recompute_priorities */
    method RecomputePriorities()
      requires Linked() && WellFormed(View())
      modifies tasks
      ensures Linked() && View() == Recompute(old(View()))
    {
      ghost var s := View();
      EdgesInRange(s);
      ResetPriorities(s);
      assert |View().tasks| == |s.tasks|;
      RelaxAll(s, Bases(s), Edges(s));
      WithEffsIsRecompute(s, InheritedAll(Bases(s), Edges(s)));
    }

    // ----- semaphores -----

    method SetSemaphore(sem: Semaphore, count: nat, ghost gives: nat, ghost takes: nat)
      requires Linked() && HasObject(WaitSemaphore, sem)
      modifies sem
      ensures Linked()
      ensures View() == old(View()).(sems := old(SemViews())[sem.id :=
                old(sem.View()).(count := count, gives := gives, takes := takes)])
    {
      sem.count := count;
      sem.gives := gives;
      sem.takes := takes;
      SemaphoreChanged(sem);
    }

    /** rtos_semaphore_take up to the point where the caller is suspended. */
    method SemaphoreTake(sem: Semaphore, timeout: Word, ctx: Context) returns (reply: Reply)
      requires Linked() && HasObject(WaitSemaphore, sem)
      modifies sem, this`waitSequence, this`blockCount, this`switchPending, current
      ensures Linked() && Outcome(View(), reply) == Take(old(View()), ctx, sem.id, timeout)
    {
      if !TimeoutValid(timeout) {
        return Returned(ErrInvalid, []);
      }
      if !ctx.ThreadMode? {
        return Returned(ErrState, []);
      }
      assert View().sems[sem.id] == sem.View();
      if sem.count != 0 {
        SetSemaphore(sem, sem.count - 1, sem.gives, sem.takes + 1);
        return Returned(Ok, []);
      }
      if timeout == 0 {
        return Returned(ErrBusy, []);
      }
      var _ := BlockCurrent(WaitSemaphore, sem, [], timeout);
      return Suspended;
    }

    /** A give that finds a waiter hands the token over. */
    method HandTokenTo(sem: Semaphore, waiter: Task)
      requires Linked() && HasObject(WaitSemaphore, sem) && HasTask(waiter)
      modifies sem, this`switchPending, waiter
      ensures Linked()
      ensures View() == MaybePreempt(Wake(old(View()).(sems := old(SemViews())[sem.id :=
                old(sem.View()).(gives := old(sem.gives) + 1, takes := old(sem.takes) + 1)]), waiter.id, Ok), waiter.id)
    {
      SetSemaphore(sem, sem.count, sem.gives + 1, sem.takes + 1);
      WakeTask(waiter, Ok);
      MaybePreemptFor(waiter);
    }

    /** rtos_semaphore_give_common */
    method SemaphoreGiveCommon(sem: Semaphore) returns (rc: Status)
      requires Linked() && HasObject(WaitSemaphore, sem)
      modifies sem, this`switchPending, tasks
      ensures Linked() && Return(View(), rc) == GiveCommon(old(View()), sem.id)
    {
      hide FindWaiter, Wake, MaybePreempt, WellFormed;
      var waiter := FindWaiterFor(WaitSemaphore, sem);
      assert View().sems[sem.id] == sem.View();
      if waiter != null {
        HandTokenTo(sem, waiter);
        return Ok;
      }
      if sem.count >= sem.maximumCount {
        return ErrBusy;
      }
      SetSemaphore(sem, sem.count + 1, sem.gives + 1, sem.takes);
      return Ok;
    }

    method SemaphoreGive(sem: Semaphore, ctx: Context) returns (rc: Status)
      requires Linked() && HasObject(WaitSemaphore, sem)
      modifies sem, this`switchPending, tasks
      ensures Linked() && Return(View(), rc) == Give(old(View()), ctx, sem.id)
    {
      if !ctx.ThreadMode? {
        return ErrState;
      }
      rc := SemaphoreGiveCommon(sem);
    }

    method SemaphoreGiveFromIsr(sem: Semaphore, ctx: Context) returns (rc: Status)
      requires Linked() && HasObject(WaitSemaphore, sem)
      modifies sem, this`switchPending, tasks
      ensures Linked() && Return(View(), rc) == GiveFromIsr(old(View()), ctx, sem.id)
    {
      if ctx != Isr(true) {
        return ErrState;
      }
      rc := SemaphoreGiveCommon(sem);
    }

    // ----- mutexes -----

    /** The mutex gets a new owner, whose hold count goes up. */
    method GiveMutexTo(mutex: Mutex, task: Task)
      requires Linked() && HasObject(WaitMutex, mutex) && HasTask(task)
      modifies mutex, task`mutexHoldCount
      ensures Linked() && View() == Acquire(old(View()), mutex.id, task.id)
    {
      SetOwner(mutex, task);
      RaiseHoldCount(task);
    }

    /** uint8_t increment of mutex_hold_count. */
    method RaiseHoldCount(task: Task)
      requires Linked() && HasTask(task)
      modifies task`mutexHoldCount
      ensures Linked()
      ensures View() == old(View()).(tasks := old(TaskViews())[task.id :=
                old(task.View()).(holds := Increment(old(task.mutexHoldCount)))])
    {
      task.mutexHoldCount := if task.mutexHoldCount == 255 then 0 else task.mutexHoldCount + 1;
      TaskChanged(task);
    }

    method SetOwner(mutex: Mutex, owner: Task?)
      requires Linked() && HasObject(WaitMutex, mutex) && (owner != null ==> HasTask(owner))
      modifies mutex
      ensures Linked()
      ensures View() == old(View()).(
        mutexes := old(MutexViews())[mutex.id := if owner == null then None else Some(owner.id)])
    {
      mutex.owner := owner;
      MutexChanged(mutex);
    }

    /** rtos_mutex_lock up to the point where the caller is suspended. */
    method MutexLock(mutex: Mutex, timeout: Word, ctx: Context) returns (reply: Reply)
      requires Valid() && HasObject(WaitMutex, mutex)
      modifies mutex, this`waitSequence, this`blockCount, this`switchPending, tasks
      ensures Linked() && Outcome(View(), reply) == Lock(old(View()), ctx, mutex.id, timeout)
    {
      if !TimeoutValid(timeout) {
        return Returned(ErrInvalid, []);
      }
      if !ctx.ThreadMode? {
        return Returned(ErrState, []);
      }
      assert View().mutexes[mutex.id] == mutex.View();
      if mutex.owner == null {
        GiveMutexTo(mutex, current);
        return Returned(Ok, []);
      }
      if mutex.owner == current {
        return Returned(ErrBusy, []);
      }
      if timeout == 0 {
        return Returned(ErrBusy, []);
      }
      BlockWellFormed(View(), WaitMutex, mutex.id, [], timeout);
      var _ := BlockCurrent(WaitMutex, mutex, [], timeout);
      RecomputePriorities();
      return Suspended;
    }

    method DropHoldCount()
      requires Linked()
      modifies current`mutexHoldCount
      ensures Linked() && View() == Release(old(View()))
    {
      assert View().tasks[current.id] == current.View();
      if current.mutexHoldCount != 0 {
        current.mutexHoldCount := current.mutexHoldCount - 1;
      }
      TaskChanged(current);
    }

    /** The mutex goes to the waiter found, who is woken, or becomes free. */
    method HandMutexOn(mutex: Mutex, waiter: Task?)
      requires Linked() && HasObject(WaitMutex, mutex) && (waiter != null ==> HasTask(waiter))
      modifies mutex, waiter
      ensures Linked()
      ensures View() == if waiter == null then old(View()).(mutexes := old(MutexViews())[mutex.id := None])
                        else Wake(Acquire(old(View()), mutex.id, waiter.id), waiter.id, Ok)
    {
      if waiter != null {
        GiveMutexTo(mutex, waiter);
        WakeTask(waiter, Ok);
      } else {
        SetOwner(mutex, null);
      }
    }

    /** rtos_mutex_unlock */
    method MutexUnlock(mutex: Mutex, ctx: Context) returns (rc: Status)
      requires Valid() && HasObject(WaitMutex, mutex)
      modifies mutex, this`switchPending, tasks
      ensures Linked() && Return(View(), rc) == Unlock(old(View()), ctx, mutex.id)
    {
      if !ctx.ThreadMode? {
        return ErrState;
      }
      assert View().mutexes[mutex.id] == mutex.View();
      if mutex.owner != current {
        return ErrNotOwner;
      }
      UnlockWellFormed(View(), mutex.id);
      DropHoldCount();
      var waiter := FindWaiterFor(WaitMutex, mutex);
      HandMutexOn(mutex, waiter);
      RecomputePriorities();
      MaybePreemptFor(waiter);
      return Ok;
    }

    // ----- queues -----

    method PushItem(queue: Queue, item: Item)
      requires Linked() && HasObject(WaitQueueSend, queue)
      requires queue.count < queue.capacity && |item| == queue.itemSize
      modifies queue`tail, queue`count, queue`accepted, queue.storage
      ensures Linked() && View() == KernelSpec.Push(old(View()), queue.id, item)
    {
      assert View().queues[queue.id] == queue.View();
      queue.Push(item);
      QueueChanged(queue);
    }

    method PopItem(queue: Queue) returns (item: Item)
      requires Linked() && HasObject(WaitQueueSend, queue) && queue.count > 0
      modifies queue`head, queue`count, queue`delivered
      ensures Linked() && old(View()).queues[queue.id].items != []
      ensures View() == KernelSpec.Pop(old(View()), queue.id)
      ensures item == old(View()).queues[queue.id].items[0]
      ensures queue.count == old(queue.count) - 1
    {
      assert View().queues[queue.id] == queue.View();
      var buffer := new Byte[queue.itemSize];
      queue.Pop(buffer);
      QueueChanged(queue);
      return buffer[..];
    }

    /** A send that finds a receiver writes into its buffer and wakes it. */
    method HandItemTo(queue: Queue, item: Item, receiver: Task)
      requires Linked() && HasObject(WaitQueueSend, queue) && HasTask(receiver)
      requires receiver.waitType == WaitQueueReceive
      modifies queue`accepted, queue`delivered, receiver, this`switchPending
      ensures Linked()
      ensures View() ==
        MaybePreempt(Wake(HandOffItem(old(View()), queue.id, item, receiver.id), receiver.id, Ok), receiver.id)
    {
      LogHandOff(queue, item);
      WriteBuffer(receiver, item);
      WakeTask(receiver, Ok);
      MaybePreemptFor(receiver);
    }

    method WriteBuffer(task: Task, item: Item)
      requires Linked() && HasTask(task) && task.waitType == WaitQueueReceive
      modifies task`waitBuffer
      ensures Linked()
      ensures View() == old(View()).(tasks := old(TaskViews())[task.id := old(task.View()).(buffer := item)])
    {
      task.waitBuffer := item;
      TaskChanged(task);
    }

    ghost method LogHandOff(queue: Queue, item: Item)
      requires Linked() && HasObject(WaitQueueSend, queue)
      modifies queue`accepted, queue`delivered
      ensures Linked()
      ensures View() == old(View()).(queues := old(QueueViews())[queue.id :=
                old(queue.View()).(accepted := old(queue.accepted) + [item],
                                   delivered := old(queue.delivered) + [item])])
    {
      queue.accepted := queue.accepted + [item];
      queue.delivered := queue.delivered + [item];
      QueueChanged(queue);
    }

    /** rtos_queue_send_common */
    method QueueSendCommon(queue: Queue, item: Item) returns (rc: Status)
      requires Linked() && HasObject(WaitQueueReceive, queue) && |item| == queue.itemSize
      modifies queue`tail, queue`count, queue`accepted, queue`delivered, queue.storage, this`switchPending, tasks
      ensures Linked() && Return(View(), rc) == SendCommon(old(View()), queue.id, item)
    {
      var receiver := FindWaiterFor(WaitQueueReceive, queue);
      assert View().queues[queue.id] == queue.View();
      if receiver != null {
        WaitsFor(WaitQueueReceive, queue, receiver);
        HandItemTo(queue, item, receiver);
        return Ok;
      }
      if queue.count >= queue.capacity {
        return ErrBusy;
      }
      PushItem(queue, item);
      return Ok;
    }

    /** The slot freed by a receive takes the item of the best blocked sender, who is woken. */
    method RefillFrom(queue: Queue, sender: Task)
      requires Linked() && HasObject(WaitQueueSend, queue) && HasTask(sender)
      requires queue.count < queue.capacity && |sender.waitBuffer| == queue.itemSize
      modifies queue`tail, queue`count, queue`accepted, queue.storage, sender, this`switchPending
      ensures Linked()
      ensures View() ==
        MaybePreempt(Wake(KernelSpec.Push(old(View()), queue.id, old(sender.waitBuffer)), sender.id, Ok), sender.id)
    {
      PushItem(queue, sender.waitBuffer);
      WakeTask(sender, Ok);
      MaybePreemptFor(sender);
    }

    /** rtos_queue_receive_common */
    method QueueReceiveCommon(queue: Queue) returns (rc: Status, item: Item)
      requires Linked() && HasObject(WaitQueueSend, queue)
      modifies queue`head, queue`tail, queue`count, queue`accepted, queue`delivered, queue.storage
      modifies this`switchPending, tasks
      ensures Linked() && Outcome(View(), Returned(rc, item)) == ReceiveCommon(old(View()), queue.id)
      ensures rc == ErrBusy ==> item == []
    {
      assert View().queues[queue.id] == queue.View();
      if queue.count == 0 {
        return ErrBusy, [];
      }
      item := PopItem(queue);
      var sender := FindWaiterFor(WaitQueueSend, queue);
      if sender != null {
        SenderBuffer(queue, sender);
        RefillFrom(queue, sender);
      }
      return Ok, item;
    }

    /** The task found waiting to send holds one item of this queue. */
    lemma SenderBuffer(queue: Queue, sender: Task)
      requires Linked() && HasObject(WaitQueueSend, queue) && HasTask(sender)
      requires Waits(View(), sender.id, WaitQueueSend, queue.id)
      ensures |sender.waitBuffer| == queue.itemSize && View().tasks[sender.id].buffer == sender.waitBuffer
    {
      WaitsFor(WaitQueueSend, queue, sender);
      assert WaitLinked(tasks[sender.id]);
      assert View().tasks[sender.id] == sender.View();
    }

    /** rtos_queue_send up to the point where the caller is suspended. */
    method QueueSend(queue: Queue, item: Item, timeout: Word, ctx: Context) returns (reply: Reply)
      requires Linked() && HasObject(WaitQueueSend, queue) && |item| == queue.itemSize
      modifies queue`head, queue`tail, queue`count, queue`accepted, queue`delivered, queue.storage
      modifies this`waitSequence, this`blockCount, this`switchPending, tasks
      ensures Linked() && Outcome(View(), reply) == Send(old(View()), ctx, queue.id, item, timeout)
    {
      if !TimeoutValid(timeout) {
        return Returned(ErrInvalid, []);
      }
      if !ctx.ThreadMode? {
        return Returned(ErrState, []);
      }
      var rc := QueueSendCommon(queue, item);
      if rc == ErrBusy && timeout != 0 {
        var _ := BlockCurrent(WaitQueueSend, queue, item, timeout);
        return Suspended;
      }
      return Returned(rc, []);
    }

    /** rtos_queue_receive up to the point where the caller is suspended. */
    method QueueReceive(queue: Queue, timeout: Word, ctx: Context) returns (reply: Reply)
      requires Linked() && HasObject(WaitQueueReceive, queue)
      modifies queue`head, queue`tail, queue`count, queue`accepted, queue`delivered, queue.storage
      modifies this`waitSequence, this`blockCount, this`switchPending, tasks
      ensures Linked() && Outcome(View(), reply) == Receive(old(View()), ctx, queue.id, timeout)
    {
      hide Block, ReceiveCommon, WellFormed;
      if !TimeoutValid(timeout) {
        return Returned(ErrInvalid, []);
      }
      if !ctx.ThreadMode? {
        return Returned(ErrState, []);
      }
      var rc, item := QueueReceiveCommon(queue);
      if rc == ErrBusy && timeout != 0 {
        var _ := BlockCurrent(WaitQueueReceive, queue, [], timeout);
        return Suspended;
      }
      return Returned(rc, item);
    }

    method QueueSendFromIsr(queue: Queue, item: Item, ctx: Context) returns (rc: Status)
      requires Linked() && HasObject(WaitQueueSend, queue) && |item| == queue.itemSize
      modifies queue`head, queue`tail, queue`count, queue`accepted, queue`delivered, queue.storage
      modifies this`switchPending, tasks
      ensures Linked() && Return(View(), rc) == SendFromIsr(old(View()), ctx, queue.id, item)
    {
      if ctx != Isr(true) {
        return ErrState;
      }
      rc := QueueSendCommon(queue, item);
    }

    method QueueReceiveFromIsr(queue: Queue, ctx: Context) returns (rc: Status, item: Item)
      requires Linked() && HasObject(WaitQueueReceive, queue)
      modifies queue`head, queue`tail, queue`count, queue`accepted, queue`delivered, queue.storage
      modifies this`switchPending, tasks
      ensures Linked() && Outcome(View(), Returned(rc, item)) == ReceiveFromIsr(old(View()), ctx, queue.id)
    {
      if ctx != Isr(true) {
        return ErrState, [];
      }
      rc, item := QueueReceiveCommon(queue);
    }

    // ----- delays, termination, the tick and the switch -----

    /** rtos_task_yield */
    method TaskYield(ctx: Context)
      requires Linked()
      modifies this`switchPending
      ensures Linked() && View() == old(View()).(pending := old(switchPending) || ctx.ThreadMode?)
    {
      if ctx.ThreadMode? {
        switchPending := true;
      }
      TablesKept();
    }

    /** rtos_task_delay */
    method TaskDelay(delay: Word, ctx: Context) returns (rc: Status)
      requires Linked()
      modifies this`switchPending, current
      ensures Linked() && Return(View(), rc) == Delay(old(View()), ctx, delay)
    {
      if delay == 0 {
        TaskYield(ctx);
        return Ok;
      }
      if !ctx.ThreadMode? || !TimeoutValid(delay) || delay == WAIT_FOREVER {
        return ErrInvalid;
      }
      StartDelay(delay);
      return Ok;
    }

    method StartDelay(delay: Word)
      requires Linked() && delay != 0 && TimeoutValid(delay) && delay != WAIT_FOREVER
      modifies this`switchPending, current
      ensures Linked() && View() == Delay(old(View()), ThreadMode, delay).s
    {
      DelayIs(View(), delay);
      assert View().tasks[current.id] == current.View();
      hide KernelSpec.Delay, TimeoutValid;
      FillDelayed(delay);
      assert WaitLinked(current);
      OwnTaskChanged(current);
    }

    /** The writes of rtos_task_delay. */
    method FillDelayed(delay: Word)
      modifies this`switchPending, current
      ensures current.View() == old(current.View()).(
        wakeTick := Wrap32(ticks + delay), waitForever := false, state := Delayed,
        past := old(current.past).(deadline := now + delay))
      ensures current.waitObject == old(current.waitObject) && current.waitType == old(current.waitType)
      ensures current.waitBuffer == old(current.waitBuffer) && switchPending
    {
      current.Delay((ticks + delay) % 0x1_0000_0000, now + delay);
      switchPending := true;
    }

    /** What rtos_task_entry_trampoline does when the task function has returned. */
    method TaskReturned()
      requires Linked()
      modifies this`switchPending, this`fault, current`state
      ensures Linked() && View() == Terminate(old(View()))
    {
      assert View().tasks[current.id] == current.View();
      if current.mutexHoldCount != 0 {
        fault := FaultTaskReturnWithMutex;
        TablesKept();
      } else {
        current.state := Terminated;
        switchPending := true;
        OwnTaskChanged(current);
      }
    }

    /** A blocked call that has been resumed reads its result; a received item is in its buffer. */
    method ReturnFromBlockedCall() returns (rc: Status, ghost item: Item)
      requires Linked()
      modifies current`past
      ensures Linked() && Outcome(View(), Returned(rc, item)) == Resume(old(View()))
    {
      assert View().tasks[current.id] == current.View();
      rc := current.waitResult;
      item := Resume(View()).reply.item;
      current.past := current.past.(call := None);
      TaskChanged(current);
    }

    /** One task's turn in the loop of rtos_tick_isr. */
    method ExpireTask(task: Task, time: Word) returns (mutexTimeout: bool)
      requires Linked() && HasTask(task)
      modifies task
      ensures Linked()
      ensures View() == old(View()).(tasks := old(TaskViews())[task.id := ExpireTcb(old(task.View()), time)])
      ensures mutexTimeout <==> TimesOut(old(task.View()), time) && old(task.waitType) == WaitMutex
    {
      mutexTimeout := task.Expire(time);
      TaskChanged(task);
    }

    /** The loop of rtos_tick_isr. */
    method ExpireAll(ghost s: State) returns (mutexTimeout: bool)
      requires Linked() && s == View()
      modifies tasks
      ensures Linked() && View() == Expire(s)
      ensures mutexTimeout <==> MutexTimesOut(s)
    {
      mutexTimeout := false;
      var index := 0;
      ExpiredNone(s);
      while index < |tasks|
        invariant 0 <= index <= |tasks|
        invariant Linked() && View() == ExpiredUpTo(s, index)
        invariant mutexTimeout <==> MutexTimesOutBelow(s, index)
      {
        assert View().tasks[index] == tasks[index].View();
        var timeout := ExpireTask(tasks[index], ticks);
        ExpiredOneMore(s, index);
        mutexTimeout := mutexTimeout || timeout;
        index := index + 1;
      }
      ExpiredAll(s);
    }

    /** SysTick_Handler with rtos_tick_isr as its hook. */
    method SysTickHandler()
      requires Valid()
      modifies this`ticks, this`now, this`switchPending, tasks
      ensures Linked() && View() == Tick(old(View()))
    {
      AdvanceTick();
      ExpireWellFormed(View());
      var mutexTimeout := ExpireAll(View());
      if mutexTimeout {
        RecomputePriorities();
      }
      TaskYield(ThreadMode);
    }

    method AdvanceTick()
      requires Valid()
      modifies this`ticks, this`now
      ensures Valid() && View() == Advance(old(View()))
    {
      ticks := (ticks + 1) % 0x1_0000_0000;
      now := now + 1;
      TablesKept();
      SameTablesWellFormed(old(View()), View());
    }

    /** rtos_schedule_from_pendsv */
    method ScheduleFromPendsv(stackValid: bool)
      requires Valid()
      modifies this`current, this`fault, this`switchPending, cursor, tasks
      ensures Linked() && View() == Schedule(old(View()), stackValid)
    {
      if !stackValid {
        fault := FaultStack;
        TablesKept();
        return;
      }
      PreemptCurrent();
      var next := SelectNext();
      if next == null {
        RecordFault(FaultKernelInvariant);
        return;
      }
      RunTask(next);
      ServeSwitch();
    }

    method RecordFault(reason: Fault)
      requires Linked()
      modifies this`fault
      ensures Linked() && View() == old(View()).(fault := reason)
    {
      fault := reason;
      TablesKept();
    }

    method ServeSwitch()
      requires Linked()
      modifies this`switchPending
      ensures Linked() && View() == old(View()).(pending := false)
    {
      switchPending := false;
      TablesKept();
    }

    method PreemptCurrent()
      requires Valid()
      modifies current`state
      ensures Valid() && View() == Preempted(old(View()))
    {
      assert View().tasks[current.id] == current.View();
      PreemptedWellFormed(View());
      if current.state == Running {
        current.state := Ready;
      }
      TaskChanged(current);
    }

    // ----- any step -----

    /** The code of any enabled action takes the step of the specification and keeps the invariant,
        so every run of this code is a run of KernelSpec. */
    method Step(a: Action)
      requires Linked() && Inv(View()) && Enabled(View(), a)
      modifies this, cursor, tasks, sems, mutexes, Storages()
      modifies queues`head, queues`tail, queues`count, queues`accepted, queues`delivered
      ensures Linked() && View() == Apply(old(View()), a) && Inv(View())
    {
      SchedulePreserve.StepKeeps(View(), a);
      assert WellFormed(View());
      hide Inv;
      match a
      case Invoke(ctx, api) => Call(ctx, api);
      case ReturnFromWait => var _, _ := ReturnFromBlockedCall();
      case TaskReturns => TaskReturned();
      case TickInterrupt => SysTickHandler();
      case PendSV(stackValid) => ScheduleFromPendsv(stackValid);
    }

    method Call(ctx: Context, api: Api)
      requires Valid() && ArgumentsExist(View(), api)
      modifies this, cursor, tasks, sems, mutexes, Storages()
      modifies queues`head, queues`tail, queues`count, queues`accepted, queues`delivered
      ensures Linked() && View() == Perform(old(View()), ctx, api).s
    {
      hide WellFormed, Take, Give, GiveFromIsr, Lock, Unlock, Delay;
      match api
      case TakeCall(i, timeout) => var _ := SemaphoreTake(sems[i], timeout, ctx);
      case GiveCall(i) => var _ := SemaphoreGive(sems[i], ctx);
      case GiveFromIsrCall(i) => var _ := SemaphoreGiveFromIsr(sems[i], ctx);
      case LockCall(m, timeout) => var _ := MutexLock(mutexes[m], timeout, ctx);
      case UnlockCall(m) => var _ := MutexUnlock(mutexes[m], ctx);
      case DelayCall(delay) => var _ := TaskDelay(delay, ctx);
      case _ => CallQueue(ctx, api);
    }

    method CallQueue(ctx: Context, api: Api)
      requires Linked() && ArgumentsExist(View(), api)
      requires api.SendCall? || api.ReceiveCall? || api.SendFromIsrCall? || api.ReceiveFromIsrCall?
      modifies this, cursor, tasks, sems, mutexes, Storages()
      modifies queues`head, queues`tail, queues`count, queues`accepted, queues`delivered
      ensures Linked() && View() == Perform(old(View()), ctx, api).s
    {
      hide Send, Receive, SendFromIsr, ReceiveFromIsr;
      match api
      case SendCall(q, item, timeout) => SlotSize(q); var _ := QueueSend(queues[q], item, timeout, ctx);
      case ReceiveCall(q, timeout) => var _ := QueueReceive(queues[q], timeout, ctx);
      case SendFromIsrCall(q, item) => SlotSize(q); var _ := QueueSendFromIsr(queues[q], item, ctx);
      case ReceiveFromIsrCall(q) => var _, _ := QueueReceiveFromIsr(queues[q], ctx);
    }

    lemma SlotSize(q: nat)
      requires Linked() && q < |queues|
      ensures View().queues[q].itemSize == queues[q].itemSize
    {
      assert View().queues[q] == queues[q].View();
    }

    // ----- starting -----

    /** The tasks after rtos_init and the task creations. */
    static ghost predicate TasksStartable(tasks: seq<Task>, levels: nat)
      reads tasks
    {
      forall t :: 0 <= t < |tasks| ==>
        && tasks[t].id == t && tasks[t].basePriority < levels && FreshTcb(tasks[t].View())
        && (tasks[t].basePriority == 0 <==> t == 0)
    }

    /** The application's objects after their initialisation. */
    static ghost predicate ObjectsStartable(sems: seq<Semaphore>, mutexes: seq<Mutex>, queues: seq<Queue>)
      reads sems, mutexes, queues, set q | q in queues :: q.storage
    {
      && (forall i :: 0 <= i < |sems| ==>
            && sems[i].id == i && 0 < sems[i].maximumCount
            && sems[i].count == sems[i].initial <= sems[i].maximumCount && sems[i].gives == sems[i].takes == 0)
      && (forall m :: 0 <= m < |mutexes| ==> mutexes[m].id == m && mutexes[m].owner == null)
      && (forall q :: 0 <= q < |queues| ==>
            && queues[q].id == q && queues[q].Valid()
            && queues[q].count == 0 && queues[q].accepted == queues[q].delivered == [])
      && (forall p, q :: 0 <= p < q < |queues| ==> queues[p].storage != queues[q].storage)
    }

    /** The objects of a system that rtos_start may be called on. */
    static ghost predicate Startable(tasks: seq<Task>, sems: seq<Semaphore>, mutexes: seq<Mutex>,
                                     queues: seq<Queue>, levels: nat)
      reads tasks, sems, mutexes, queues, set q | q in queues :: q.storage
    {
      1 < |tasks| <= 256 && TasksStartable(tasks, levels) && ObjectsStartable(sems, mutexes, queues)
    }

    /** rtos_init: the cursors, counters and flags of a system that is about to start. */
    constructor (tasks: seq<Task>, sems: seq<Semaphore>, mutexes: seq<Mutex>, queues: seq<Queue>,
                 levels: nat)
      requires Startable(tasks, sems, mutexes, queues, levels)
      ensures this.tasks == tasks && this.sems == sems && this.mutexes == mutexes && this.queues == queues
      ensures fresh(cursor) && Linked() && Booted(View())
    {
      hide TasksStartable, ObjectsStartable, Booted, Linked, View;
      this.tasks, this.sems, this.mutexes, this.queues := tasks, sems, mutexes, queues;
      current := tasks[0];
      cursor := new nat[levels](_ => 0);
      waitSequence, ticks, switchPending, fault := 0, 0, false, FaultNone;
      now, blockCount := 0, 0;
      new;
      StartableIsLinked(levels);
      StartableIsBooted(levels);
    }

    lemma StartableIsLinked(levels: nat)
      requires Startable(tasks, sems, mutexes, queues, levels) && current == tasks[0]
      ensures Linked()
    {
      forall t | 0 <= t < |tasks| ensures tasks[t].waitObject == null {
        assert tasks[t].View().waitObject == None;
      }
    }

    lemma StartableIsBooted(levels: nat)
      requires Startable(tasks, sems, mutexes, queues, levels) && current == tasks[0] && Linked()
      requires cursor.Length == levels && forall p :: 0 <= p < levels ==> cursor[p] == 0
      requires waitSequence == ticks == now == blockCount == 0 && !switchPending && fault == FaultNone
      ensures Booted(View())
    {
      var b := View();
      forall t | 0 <= t < |tasks|
        ensures FreshTcb(b.tasks[t]) && b.tasks[t].base < levels && (b.tasks[t].base == 0 <==> t == 0)
      {
        assert b.tasks[t] == tasks[t].View();
      }
      assert forall q :: 0 <= q < |queues| ==> b.queues[q] == queues[q].View();
      assert forall i :: 0 <= i < |sems| ==> b.sems[i] == sems[i].View();
      assert forall m :: 0 <= m < |mutexes| ==> b.mutexes[m] == mutexes[m].View();
    }

    /** rtos_start: the first selection makes its task RUNNING and current. */
    method StartFirst()
      requires Linked() && Booted(View())
      modifies this`current, cursor, tasks
      ensures Linked() && View() == Start(old(View())) && Initial(View())
    {
      assert Runnable(View().tasks[0]);
      var first := SelectNext();
      RunTask(first);
    }

    /** The selected task becomes RUNNING and current. */
    method RunTask(task: Task)
      requires Linked() && HasTask(task)
      modifies this`current, task`state
      ensures Linked()
      ensures View() == old(View()).(current := task.id,
                                     tasks := old(TaskViews())[task.id := old(task.View()).(state := Running)])
    {
      task.state := Running;
      TaskChanged(task);
      label changed:
      current := task;
      TablesKept@changed();
    }
  }

  // ----- recomputing, on the view -----

  /** The state s with these effective priorities. */
  ghost function WithEffs(s: State, e: seq<nat>): (r: State)
    requires |e| == |s.tasks|
    ensures |r.tasks| == |s.tasks| && r == s.(tasks := r.tasks)
    ensures forall t :: 0 <= t < |s.tasks| ==> r.tasks[t] == s.tasks[t].(eff := e[t])
  {
    s.(tasks := seq(|s.tasks|, t requires 0 <= t < |s.tasks| => s.tasks[t].(eff := e[t])))
  }

  lemma WithOwnEffs(s: State)
    ensures WithEffs(s, Effs(s)) == s
  {
    assert WithEffs(s, Effs(s)).tasks == s.tasks;
  }

  lemma WithOneMore(s: State, e: seq<nat>, i: nat, p: nat)
    requires |e| == |s.tasks| && i < |e|
    ensures WithEffs(s, e[i := p])
         == WithEffs(s, e).(tasks := WithEffs(s, e).tasks[i := WithEffs(s, e).tasks[i].(eff := p)])
  {
    assert WithEffs(s, e[i := p]).tasks == WithEffs(s, e).tasks[i := WithEffs(s, e).tasks[i].(eff := p)];
  }

  /** The priorities when the first k tasks have been reset. */
  ghost function ResetUpTo(s: State, k: nat): (r: seq<nat>)
    requires k <= |s.tasks|
    ensures |r| == |s.tasks|
  {
    Bases(s)[..k] + Effs(s)[k..]
  }

  lemma ResetStart(s: State)
    ensures ResetUpTo(s, 0) == Effs(s)
  {
  }

  lemma ResetEnd(s: State)
    ensures ResetUpTo(s, |s.tasks|) == Bases(s)
  {
  }

  lemma ResetOneMore(s: State, k: nat)
    requires k < |s.tasks|
    ensures ResetUpTo(s, k)[k := s.tasks[k].base] == ResetUpTo(s, k + 1)
  {
  }

  lemma EdgesOfWithEffs(s: State, e: seq<nat>)
    requires |e| == |s.tasks|
    ensures Edges(WithEffs(s, e)) == Edges(s)
  {
    forall t | 0 <= t < |s.tasks| ensures Edge(WithEffs(s, e), t) == Edge(s, t) {
    }
  }

  lemma EdgesInRange(s: State)
    requires WellFormed(s)
    ensures IsGraph(Bases(s), Edges(s))
  {
  }

  lemma WithEffsIsRecompute(s: State, e: seq<nat>)
    requires e == InheritedAll(Bases(s), Edges(s))
    ensures WithEffs(s, e) == Recompute(s)
  {
    assert WithEffs(s, e).tasks == Recompute(s).tasks;
  }

  /** Within a pass, the first k waiters have lifted their owners to what they were at its start. */
  ghost predicate PassDone(next: seq<Option<nat>>, e0: seq<nat>, e: seq<nat>, k: nat)
    requires |e0| == |e| == |next|
  {
    && (forall t :: 0 <= t < |e| ==> e0[t] <= e[t])
    && (forall v :: 0 <= v < k && v < |e| && next[v].Some? && next[v].value < |e| ==> e0[v] <= e[next[v].value])
  }

  lemma PassRaises(next: seq<Option<nat>>, e0: seq<nat>, e: seq<nat>, k: nat)
    requires |e0| == |e| == |next| && k < |e| && PassDone(next, e0, e, k)
    requires next[k].Some? && next[k].value < |e| && e[next[k].value] < e[k]
    ensures PassDone(next, e0, e[next[k].value := e[k]], k + 1)
  {
  }

  lemma PassSkips(next: seq<Option<nat>>, e0: seq<nat>, e: seq<nat>, k: nat)
    requires |e0| == |e| == |next| && k < |e| && PassDone(next, e0, e, k)
    requires next[k].Some? && next[k].value < |e| ==> e[k] <= e[next[k].value]
    ensures PassDone(next, e0, e, k + 1)
  {
  }

  lemma PassCoversMore(base: seq<nat>, next: seq<Option<nat>>, before: seq<nat>, after: seq<nat>, k: nat)
    requires IsGraph(base, next) && |before| == |after| == |base|
    requires CoversPaths(base, next, before, k) && PassDone(next, before, after, |base|)
    ensures CoversPaths(base, next, after, k + 1)
  {
    PassCoversOneMore(base, next, before, after, k);
  }

  lemma PassResult(base: seq<nat>, next: seq<Option<nat>>, before: seq<nat>, after: seq<nat>, k: nat, changed: bool)
    requires IsGraph(base, next) && |before| == |after| == |base|
    requires Sound(base, after, InheritedAll(base, next)) && CoversPaths(base, next, before, k)
    requires PassDone(next, before, after, |base|) && (!changed ==> after == before)
    ensures CoversPaths(base, next, after, k + 1) && (!changed ==> after == InheritedAll(base, next))
  {
    PassCoversMore(base, next, before, after, k);
    if !changed {
      QuietPassIsExact(base, next, after);
    }
  }

  lemma AllPassesResult(base: seq<nat>, next: seq<Option<nat>>, e: seq<nat>)
    requires IsGraph(base, next) && |e| == |base| && Sound(base, e, InheritedAll(base, next))
    requires e == InheritedAll(base, next) || CoversPaths(base, next, e, |base|)
    ensures e == InheritedAll(base, next)
  {
    if CoversPaths(base, next, e, |base|) {
      AllPassesExact(base, next, e);
    }
  }

  lemma LeastAtBase(base: seq<nat>, next: seq<Option<nat>>, top: seq<nat>)
    requires IsGraph(base, next) && |top| == |base| && Closed(base, next, top)
    ensures Sound(base, base, top) && CoversPaths(base, next, base, 0)
  {
  }

  /** Blocking and handing over keep all indices in range. */
  lemma BlockWellFormed(s: State, wt: WaitType, o: nat, buffer: Item, timeout: Word)
    requires WellFormed(s) && ObjectExists(s, wt, o)
    ensures WellFormed(Block(s, wt, o, buffer, timeout))
  {
    var s' := Block(s, wt, o, buffer, timeout);
    assert forall x, y :: ObjectExists(s', x, y) == ObjectExists(s, x, y);
  }

  lemma UnlockWellFormed(s: State, m: nat)
    requires WellFormed(s) && m < |s.mutexes|
    ensures forall w :: 0 <= w < |s.tasks| ==> WellFormed(Wake(Acquire(Release(s), m, w), w, Ok))
    ensures WellFormed(Release(s).(mutexes := s.mutexes[m := None]))
  {
    forall w | 0 <= w < |s.tasks| ensures WellFormed(Wake(Acquire(Release(s), m, w), w, Ok)) {
      var s' := Wake(Acquire(Release(s), m, w), w, Ok);
      assert forall x, y :: ObjectExists(s', x, y) == ObjectExists(s, x, y);
    }
    var f := Release(s).(mutexes := s.mutexes[m := None]);
    assert forall x, y :: ObjectExists(f, x, y) == ObjectExists(s, x, y);
  }

  lemma SameTablesWellFormed(s: State, s': State)
    requires WellFormed(s) && s' == s.(ticks := s'.ticks, now := s'.now)
    ensures WellFormed(s')
  {
    assert forall x, y :: ObjectExists(s', x, y) == ObjectExists(s, x, y);
  }

  lemma PreemptedWellFormed(s: State)
    requires WellFormed(s)
    ensures WellFormed(Preempted(s))
  {
    assert forall x, y :: ObjectExists(Preempted(s), x, y) == ObjectExists(s, x, y);
  }

  // ----- expiring, on the view -----

  lemma ExpireWellFormed(s: State)
    requires WellFormed(s)
    ensures WellFormed(Expire(s))
  {
    var e := Expire(s);
    assert forall x, y :: ObjectExists(e, x, y) == ObjectExists(s, x, y);
    forall t | 0 <= t < |s.tasks|
      ensures e.tasks[t].base < |s.cursor| && e.tasks[t].eff < |s.cursor|
      ensures e.tasks[t].waitObject.Some? ==> ObjectExists(e, e.tasks[t].waitType, e.tasks[t].waitObject.value)
    {
      assert s.tasks[t].waitObject.Some? ==> ObjectExists(s, s.tasks[t].waitType, s.tasks[t].waitObject.value);
    }
  }

  /** The tick has been applied to the first k tasks. */
  ghost function ExpiredUpTo(s: State, k: nat): (r: State)
    requires k <= |s.tasks|
    ensures |r.tasks| == |s.tasks| && r == s.(tasks := r.tasks)
    ensures forall t :: k <= t < |s.tasks| ==> r.tasks[t] == s.tasks[t]
  {
    s.(tasks := Expire(s).tasks[..k] + s.tasks[k..])
  }

  ghost predicate MutexTimesOutBelow(s: State, k: nat)
    requires k <= |s.tasks|
  {
    exists t :: 0 <= t < k && TimesOut(s.tasks[t], s.ticks) && s.tasks[t].waitType == WaitMutex
  }

  lemma ExpiredNone(s: State)
    ensures ExpiredUpTo(s, 0) == s && !MutexTimesOutBelow(s, 0)
  {
  }

  lemma ExpiredOneMore(s: State, k: nat)
    requires k < |s.tasks|
    ensures ExpiredUpTo(s, k + 1) ==
      ExpiredUpTo(s, k).(tasks := ExpiredUpTo(s, k).tasks[k := ExpireTcb(s.tasks[k], s.ticks)])
    ensures MutexTimesOutBelow(s, k + 1) <==>
      MutexTimesOutBelow(s, k) || (TimesOut(s.tasks[k], s.ticks) && s.tasks[k].waitType == WaitMutex)
  {
    assert ExpiredUpTo(s, k + 1).tasks == ExpiredUpTo(s, k).tasks[k := ExpireTcb(s.tasks[k], s.ticks)];
  }

  lemma ExpiredAll(s: State)
    ensures ExpiredUpTo(s, |s.tasks|) == Expire(s)
    ensures MutexTimesOutBelow(s, |s.tasks|) <==> MutexTimesOut(s)
  {
    assert ExpiredUpTo(s, |s.tasks|).tasks == Expire(s).tasks;
  }

  // ----- searching the table -----

  /** The state shows these control blocks. */
  ghost predicate Shows(tasks: seq<Task>, s: State)
    reads tasks
  {
    |s.tasks| == |tasks| && forall t :: 0 <= t < |tasks| ==> s.tasks[t] == tasks[t].View() && tasks[t].id == t
  }

  ghost predicate WaitsShow(tasks: seq<Task>, s: State, wt: WaitType, object_: object, o: nat)
    reads tasks
  {
    |s.tasks| == |tasks| && forall t :: 0 <= t < |tasks| ==>
      (Waits(s, t, wt, o) <==> tasks[t].state == Blocked && tasks[t].waitType == wt && tasks[t].waitObject == object_)
  }

  /** The loop of rtos_kernel_find_waiter. */
  method ScanWaiters(tasks: seq<Task>, ghost s: State, wt: WaitType, object_: object, ghost o: nat)
    returns (best: Task?)
    requires Shows(tasks, s) && WaitsShow(tasks, s, wt, object_, o)
    ensures if best == null then FindWaiter(s, wt, o) == None
            else best.id < |tasks| && tasks[best.id] == best && FindWaiter(s, wt, o) == Some(best.id)
  {
    best := null;
    var index := 0;
    while index < |tasks|
      invariant 0 <= index <= |tasks|
      invariant best != null ==> best.id < |tasks| && tasks[best.id] == best
      invariant BestWaiter(s, wt, o, index) == if best == null then None else Some(best.id)
    {
      var candidate := tasks[index];
      if candidate.state == Blocked && candidate.waitType == wt && candidate.waitObject == object_ {
        if best == null || candidate.Precedes(best) {
          best := candidate;
        }
      }
      index := index + 1;
    }
  }

  // ----- selecting, on the view -----

  /** Nothing above level p is runnable. */
  ghost predicate NoneAbove(s: State, p: int) {
    forall t :: 0 <= t < |s.tasks| && Runnable(s.tasks[t]) ==> s.tasks[t].eff <= p
  }

  /** Nothing of level p is runnable at a distance below d after the cursor. */
  ghost predicate NoneNearer(s: State, start: nat, p: nat, d: nat)
    requires start < |s.tasks|
  {
    forall t :: 0 <= t < |s.tasks| && Runnable(s.tasks[t]) && s.tasks[t].eff == p ==>
      d <= CyclicDistance(|s.tasks|, start, t)
  }

  lemma DelayIs(s: State, delay: Word)
    requires s.current < |s.tasks| && delay != 0 && TimeoutValid(delay) && delay != WAIT_FOREVER
    ensures var k := s.tasks[s.current];
      KernelSpec.Delay(s, ThreadMode, delay).s == s.(pending := true, tasks := s.tasks[s.current :=
        k.(wakeTick := Wrap32(s.ticks + delay), waitForever := false, state := Delayed,
           past := k.past.(deadline := s.now + delay))])
  {
  }

  lemma NothingRunnable(s: State)
    requires NoneAbove(s, -1)
    ensures !AnyRunnable(s)
  {
  }

  lemma FirstIsSelected(s: State, start: nat, p: nat, i: nat)
    requires WellFormed(s) && p < |s.cursor| && start == s.cursor[p] && NoneAbove(s, p)
    requires i < |s.tasks| && Runnable(s.tasks[i]) && s.tasks[i].eff == p
    requires NoneNearer(s, start, p, CyclicDistance(|s.tasks|, start, i))
    ensures IsSelected(s, i)
  {
  }

  /** The index `offset` places after the cursor is the only one at that distance. */
  lemma NextDistance(s: State, start: nat, p: nat, offset: nat, index: nat)
    requires start < |s.tasks| && 1 <= offset <= |s.tasks| && index < |s.tasks|
    requires CyclicDistance(|s.tasks|, start, index) == offset - 1
    requires !(Runnable(s.tasks[index]) && s.tasks[index].eff == p)
    requires NoneNearer(s, start, p, offset - 1)
    ensures NoneNearer(s, start, p, offset)
  {
  }

  lemma NoneAtLevel(s: State, start: nat, p: nat)
    requires start < |s.tasks| && NoneAbove(s, p) && NoneNearer(s, start, p, |s.tasks|)
    ensures NoneAbove(s, p - 1)
  {
  }
}
