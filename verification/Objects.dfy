/** The control blocks of tasks, mutexes and semaphores, updated in place. Each object knows, for
    specifications only, its position in the table of its kind. */
module Objects {
  import opened Collections
  import opened Words
  import opened KernelState
  import KernelSpec
  import opened Ring
  import opened ContextSwitch

  class Semaphore {
    ghost const id: nat
    var count: nat
    var maximumCount: nat
    ghost var initial: nat
    ghost var gives: nat
    ghost var takes: nat

    ghost function View(): Sem
      reads this
    {
      Sem(count, maximumCount, initial, gives, takes)
    }

    constructor (ghost id: nat)
      ensures this.id == id
    {
      this.id := id;
      count, maximumCount := 0, 0;
      initial, gives, takes := 0, 0, 0;
    }

    /** rtos_semaphore_init */
    method Init(initialCount: Word, maximum: Word, open: bool) returns (rc: Status)
      modifies this
      ensures rc == (if maximum == 0 || initialCount > maximum then ErrInvalid else if !open then ErrState else Ok)
      ensures rc != Ok ==> unchanged(this)
      ensures rc == Ok ==> View() == Sem(initialCount, maximum, initialCount, 0, 0)
    {
      if maximum == 0 || initialCount > maximum {
        return ErrInvalid;
      }
      if !open {
        return ErrState;
      }
      count, maximumCount := initialCount, maximum;
      initial, gives, takes := initialCount, 0, 0;
      return Ok;
    }
  }

  class Mutex {
    ghost const id: nat
    var owner: Task?

    ghost function View(): Option<nat>
      reads this
    {
      if owner == null then None else Some(owner.id)
    }

    constructor (ghost id: nat)
      ensures this.id == id && owner == null
    {
      this.id := id;
      owner := null;
    }
  }

  /** The part of RTOS_Task_t that the context switch and the trampoline use, at byte address
      `address`; a stack pointer is the number of the word it points to. */
  class TaskBlock {
    const address: Word
    var function_: Word
    var argument: Word
    var stackBase: nat
    var stackWords: Word
    var stackPointer: nat
    var excReturn: Word

    function View(): StackTcb
      reads this
    {
      StackTcb(address, stackBase, stackWords, stackPointer, excReturn)
    }

    constructor (address: Word)
      ensures this.address == address
    {
      this.address := address;
      function_, argument, stackBase, stackWords, stackPointer, excReturn := 0, 0, 0, 0, 0, 0;
    }
  }

  /** The scheduling part of RTOS_Task_t. */
  class Task {
    ghost const id: nat
    const block: TaskBlock
    const basePriority: nat
    var effectivePriority: nat
    var state: TaskState
    var waitType: WaitType
    var waitObject: object?
    var waitBuffer: Item
    var wakeTick: Word
    var waitForever: bool
    var waitSequence: Word
    var waitResult: Status
    var mutexHoldCount: Byte
    ghost var past: Past

    ghost function View(): Tcb
      reads this
    {
      Tcb(state, basePriority, effectivePriority, waitType, ObjectId(waitObject), waitBuffer,
          wakeTick, waitForever, waitSequence, waitResult, mutexHoldCount, past)
    }

    /** The scheduling fields as rtos_task_add leaves them. */
    constructor (ghost id: nat, block: TaskBlock, priority: nat)
      ensures this.id == id && this.block == block && basePriority == priority
      ensures View() == Tcb(Ready, priority, priority, WaitNone, None, [], 0, false, 0, Ok, 0,
                            Past(0, 0, None, 0, 0, 0, false))
    {
      this.id, this.block := id, block;
      basePriority, effectivePriority := priority, priority;
      state, waitType, waitObject, waitBuffer := Ready, WaitNone, null, [];
      wakeTick, waitForever, waitSequence, waitResult := 0, false, 0, Ok;
      mutexHoldCount := 0;
      past := Past(0, 0, None, 0, 0, 0, false);
    }

    /** The comparison of rtos_kernel_find_waiter: higher priority, then earlier wrapping sequence. */
    predicate Precedes(best: Task)
      reads this, best
      ensures Precedes(best) <==> Better(this.View(), best.View())
    {
      || effectivePriority > best.effectivePriority
      || (effectivePriority == best.effectivePriority
          && (waitSequence - best.waitSequence) % 0x1_0000_0000 >= 0x8000_0000)
    }

    /** The writes of rtos_kernel_block_current to the control block. */
    method Block(wt: WaitType, object_: object, buffer: Item, sequence: Word, timeout: Word, ticks: Word,
                 ghost past: Past)
      modifies this
      ensures waitObject == object_
      ensures View() == old(View()).(
        waitType := wt, waitObject := ObjectId(object_), buffer := buffer, waitSequence := sequence,
        waitResult := Ok, waitForever := timeout == WAIT_FOREVER,
        wakeTick := if timeout == WAIT_FOREVER then old(wakeTick) else Wrap32(ticks + timeout),
        state := Blocked, past := past)
    {
      waitType := wt;
      waitObject := object_;
      waitBuffer := buffer;
      waitSequence := sequence;
      waitResult := Ok;
      waitForever := timeout == WAIT_FOREVER;
      if !waitForever {
        wakeTick := (ticks + timeout) % 0x1_0000_0000;
      }
      state := Blocked;
      this.past := past;
    }

    /** The writes of rtos_task_delay to the control block. */
    method Delay(wakeTick: Word, ghost deadline: nat)
      modifies this
      ensures View() == old(View()).(wakeTick := wakeTick, waitForever := false, state := Delayed,
                                     past := old(past).(deadline := deadline))
      ensures waitObject == old(waitObject) && waitType == old(waitType) && waitBuffer == old(waitBuffer)
    {
      this.wakeTick := wakeTick;
      waitForever := false;
      state := Delayed;
      past := past.(deadline := deadline);
    }

    /** rtos_kernel_wake_task */
    method Wake(result: Status)
      modifies this
      ensures View() == WakeTcb(old(View()), result)
    {
      waitResult := result;
      waitType := WaitNone;
      waitObject := null;
      waitForever := false;
      state := Ready;
      past := WakeTcb(old(View()), result).past;
    }

    /** The tick's treatment of one control block; tells whether a wait for a mutex timed out. */
    method Expire(time: Word) returns (mutexTimeout: bool)
      modifies this
      ensures View() == KernelSpec.ExpireTcb(old(View()), time)
      ensures mutexTimeout <==> KernelSpec.TimesOut(old(View()), time) && old(waitType) == WaitMutex
      ensures waitObject == null
           || (waitObject == old(waitObject) && waitType == old(waitType) && waitBuffer == old(waitBuffer))
    {
      mutexTimeout := false;
      if state == Delayed && Wrap32(time - wakeTick) < TWO31 {
        state := Ready;
      } else if state == Blocked && !waitForever && Wrap32(time - wakeTick) < TWO31 {
        mutexTimeout := waitType == WaitMutex;
        Wake(ErrTimeout);
      }
    }
  }

  /** The table position of the object a void pointer refers to. */
  ghost function ObjectId(o: object?): Option<nat> {
    if o == null then None
    else if o is Mutex then Some((o as Mutex).id)
    else if o is Semaphore then Some((o as Semaphore).id)
    else if o is Queue then Some((o as Queue).id)
    else Some(0)
  }
}
