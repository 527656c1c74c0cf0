/** The processor and the task table: task creation and the halves of a context switch, in place on
    memory, registers and control blocks. */
module BoardCode {
  import opened Words
  import opened KernelState
  import opened ContextSwitch
  import opened Objects

  const MAX_TASKS: nat := 8
  const PRIORITY_LEVELS: nat := 8
  const IDLE_PRIORITY: nat := 0
  const IDLE_STACK_WORDS: Word := 128

  /** Stack storage at byte address `stack` that exists: in RAM, and ending below the end of the
      address space. */
  predicate Storage(stack: Word, stackWords: Word, memory: nat) {
    4 * RAM_START <= stack && stack + 4 * stackWords <= 4 * memory && stack + 4 * stackWords <= 0xFFFF_FFFF
  }

  predicate ArgumentsValid(stack: Word, stackWords: Word, priority: Byte) {
    && stackWords >= MIN_STACK_WORDS && stack % 8 == 0 && stackWords % 2 == 0
    && priority as nat < PRIORITY_LEVELS
  }

  /** The two reasons to reject a task against a registered one: same control block, or overlap. */
  predicate Clashes(existing: StackTcb, address: Word, stack: Word, stackWords: Word) {
    || existing.address == address
    || (stack < 4 * StackEnd(existing) && 4 * existing.stackBase < Wrap32(stack + 4 * stackWords))
  }

  /** Byte b of the address space is one of the 4 * stackWords bytes from `stack` on, which go on at
      address 0 after the last one. */
  predicate Occupies(stack: Word, stackWords: Word, b: Word) {
    Wrap32(b - stack) < 4 * stackWords
  }

  ghost predicate SharesByte(existing: StackTcb, stack: Word, stackWords: Word) {
    exists b: Word :: 4 * existing.stackBase <= b < 4 * StackEnd(existing) && Occupies(stack, stackWords, b)
  }

  /** For any arguments that get this far, a reported clash is one; and it is reported whenever the
      new stack ends in the address space. */
  lemma ClashExact(existing: StackTcb, memory: nat, address: Word, stack: Word, stackWords: Word)
    requires StackPlaced(existing, memory) && stackWords >= MIN_STACK_WORDS
    ensures Clashes(existing, address, stack, stackWords) ==>
              existing.address == address || SharesByte(existing, stack, stackWords)
    ensures stack + 4 * stackWords <= 0xFFFF_FFFF ==>
              (Clashes(existing, address, stack, stackWords) <==>
                 existing.address == address || SharesByte(existing, stack, stackWords))
  {
    var low := 4 * existing.stackBase;
    if Clashes(existing, address, stack, stackWords) && existing.address != address {
      var b: Word := if stack < low then low else stack;
      assert low <= b < 4 * StackEnd(existing) && Occupies(stack, stackWords, b);
    }
    if stack + 4 * stackWords <= 0xFFFF_FFFF && SharesByte(existing, stack, stackWords) {
      var b: Word :| low <= b < 4 * StackEnd(existing) && Occupies(stack, stackWords, b);
    }
  }

  /** A stack that wraps around the address space hides an overlap, unless it overlaps with both of
      its pieces. */
  lemma WrappedClashExact(existing: StackTcb, memory: nat, address: Word, stack: Word, stackWords: Word)
    requires StackPlaced(existing, memory) && existing.address != address && stackWords < 0x4000_0000
    requires stack + 4 * stackWords > 0xFFFF_FFFF && SharesByte(existing, stack, stackWords)
    ensures Clashes(existing, address, stack, stackWords) <==>
              stack < 4 * StackEnd(existing) && 4 * existing.stackBase < stack + 4 * stackWords - 0x1_0000_0000
  {
  }

  /** For example: a stack of 0x1000 words whose end is the end of the address space, and one that
      is registered at the same place. */
  lemma OverlapMissed() returns (existing: StackTcb, stack: Word, stackWords: Word)
    ensures StackPlaced(existing, StackEnd(existing)) && ArgumentsValid(stack, stackWords, 1)
    ensures SharesByte(existing, stack, stackWords)
    ensures forall address: Word :: address != existing.address ==> !Clashes(existing, address, stack, stackWords)
  {
    existing := StackTcb(0, 0x3FFF_F000, 128, 0x3FFF_F000, 0);
    stack, stackWords := 0xFFFF_C000, 0x1000;
    assert 4 * existing.stackBase <= stack < 4 * StackEnd(existing) && Occupies(stack, stackWords, stack);
  }

  ghost predicate AnyClash(stacks: seq<StackTcb>, address: Word, stack: Word, stackWords: Word) {
    exists t :: 0 <= t < |stacks| && Clashes(stacks[t], address, stack, stackWords)
  }

  /** The verdict of rtos_task_add, for any arguments: its checks in its order. */
  ghost function AddVerdict(stacks: seq<StackTcb>, address: Word, stack: Word, stackWords: Word,
                            priority: Byte): Status
  {
    if !ArgumentsValid(stack, stackWords, priority) then ErrInvalid
    else if |stacks| > MAX_TASKS then ErrLimit
    else if AnyClash(stacks, address, stack, stackWords) then ErrInvalid
    else Ok
  }

  ghost predicate DistinctBlocks(stacks: seq<StackTcb>) {
    forall t, u :: 0 <= t < u < |stacks| ==> stacks[t].address != stacks[u].address
  }

  ghost predicate AllFresh(mem: seq<Word>, stacks: seq<StackTcb>, trampoline: Word)
    requires Layout(stacks, |mem|)
  {
    forall t :: 0 <= t < |stacks| ==> FreshContext(mem, stacks[t], trampoline)
  }

  /** Initialising a stack that clashes with no registered task keeps every registered task fresh. */
  lemma AddKeepsFresh(mem: seq<Word>, stacks: seq<StackTcb>, k: StackTcb, trampoline: Word)
    requires Layout(stacks, |mem|) && DistinctBlocks(stacks) && AllFresh(mem, stacks, trampoline)
    requires StackPlaced(k, |mem|) && !AnyClash(stacks, k.address, 4 * k.stackBase, k.stackWords)
    requires k.stackPointer == StackEnd(k) - 16 && k.excReturn == EXC_RETURN_THREAD_PSP
    ensures var mem' := Write(mem, k.stackBase, StackImage(k.stackWords, k.address, trampoline));
            && Layout(stacks + [k], |mem'|) && DistinctBlocks(stacks + [k])
            && AllFresh(mem', stacks + [k], trampoline)
  {
    var image := StackImage(k.stackWords, k.address, trampoline);
    var mem' := Write(mem, k.stackBase, image);
    forall t | 0 <= t < |stacks|
      ensures StacksDisjoint(stacks[t], k) && stacks[t].address != k.address
      ensures FreshContext(mem', stacks[t], trampoline)
    {
      assert !Clashes(stacks[t], k.address, 4 * k.stackBase, k.stackWords) && StackPlaced(stacks[t], |mem|);
      DisjointKeptFresh(mem, stacks[t], k, image, trampoline);
    }
    ReadBack(mem, k.stackBase, image);
  }

  lemma DisjointKeptFresh(mem: seq<Word>, l: StackTcb, k: StackTcb, image: seq<Word>, trampoline: Word)
    requires StackPlaced(l, |mem|) && StackPlaced(k, |mem|) && StacksDisjoint(l, k)
    requires |image| == k.stackWords && FreshContext(mem, l, trampoline)
    ensures FreshContext(Write(mem, k.stackBase, image), l, trampoline)
  {
    ReadElsewhere(mem, k.stackBase, image, l.stackBase, l.stackWords);
  }

  ghost function Filled(mem: seq<Word>, low: nat, w: nat): (r: seq<Word>)
    requires 0 < w && low + w <= |mem|
    ensures |r| == |mem|
  {
    (mem[..low] + seq(w, _ => STACK_FILL) + mem[low + w..])[low := STACK_CANARY]
  }

  ghost predicate TasksFresh(tasks: seq<Task>)
    reads tasks
  {
    forall t :: 0 <= t < |tasks| ==> FreshTcb(tasks[t].View()) && tasks[t].basePriority < PRIORITY_LEVELS
  }

  predicate IdleFirst(tasks: seq<Task>) {
    forall t :: 0 <= t < |tasks| ==> (tasks[t].basePriority == IDLE_PRIORITY <==> t == 0)
  }

  lemma OneMore(tasks: seq<Task>, tasks': seq<Task>)
    requires IdleFirst(tasks) && 0 < |tasks| && |tasks'| == |tasks| + 1 && tasks'[..|tasks|] == tasks
    requires tasks'[|tasks|].basePriority != IDLE_PRIORITY
    ensures IdleFirst(tasks')
  {
    forall t | 0 <= t < |tasks| ensures tasks'[t] == tasks[t] {
      assert tasks'[t] == tasks'[..|tasks|][t];
    }
  }

  class Board {
    /** `mem[i]` is the word at byte address 4 * i. */
    const mem: array<Word>
    const core: array<Word>
    const fp: array<Word>
    var psp: nat
    var lr: Word

    const trampoline: Word
    const idle: TaskBlock
    const idleEntry: Word
    const idleStack: Word
    /** rtos_tasks[0 .. rtos_task_count) */
    var tasks: seq<Task>
    var applicationTasks: nat
    var initialized: bool
    var running: bool

    ghost function Blocks(): set<object>
      reads this`tasks
    {
      set t | t in tasks :: t.block
    }

    ghost function Stacks(): (r: seq<StackTcb>)
      reads this`tasks, Blocks()
      ensures |r| == |tasks| && forall t :: 0 <= t < |tasks| ==> r[t] == tasks[t].block.View()
    {
      var ts, blocks := tasks, Blocks();
      seq(|ts|, t requires 0 <= t < |ts| && ts[t].block in blocks reads blocks => ts[t].block.View())
    }

    /** Memory and register files. */
    ghost function Hardware(): set<object> {
      {mem, core, fp}
    }

    /** The processor state with task t as rtos_current_task. */
    ghost function View(t: nat): Cpu
      reads this, Blocks(), mem, core, fp
    {
      Cpu(mem[..], Stacks(), t, Registers(core[..], fp[..], psp, lr))
    }

    ghost predicate NumberedTasks()
      reads this`tasks
    {
      forall t :: 0 <= t < |tasks| ==> tasks[t].id == t
    }

    /** Control blocks are distinct, stacks lie in memory and are pairwise disjoint. */
    ghost predicate Built()
      reads this`tasks, Blocks(), mem
    {
      && core.Length == 8 && fp.Length == 16 && mem != core && mem != fp && core != fp
      && |tasks| <= MAX_TASKS + 1
      && NumberedTasks()
      && DistinctBlocks(Stacks()) && Layout(Stacks(), mem.Length)
    }

    /** Before rtos_start: every registered task is as rtos_task_add left it. */
    ghost predicate Registered()
      reads this`tasks, this`running, Blocks(), mem, tasks
    {
      && Built() && !running
      && AllFresh(mem[..], Stacks(), trampoline)
      && TasksFresh(tasks)
    }

    /** What the kernel does to its own data does not reach the board. */
    twostate lemma Kept()
      requires old(Built())
      requires unchanged(this, mem, core, fp) && unchanged(old(Blocks()))
      ensures Built() && forall t :: View(t) == old(View(t))
    {
    }

    // ----- rtos_task_add -----

    method FindClash(block: TaskBlock, stack: Word, stackWords: Word) returns (clash: bool)
      requires Registered()
      ensures Registered() && Stacks() == old(Stacks())
      ensures clash <==> AnyClash(Stacks(), block.address, stack, stackWords)
    {
      hide AllFresh, DistinctBlocks, TasksFresh;
      var newLow := stack;
      var newHigh := Wrap32(stack + 4 * stackWords);
      var index := 0;
      while index < |tasks|
        invariant 0 <= index <= |tasks|
        invariant forall t :: 0 <= t < index ==> !Clashes(Stacks()[t], block.address, stack, stackWords)
      {
        var existing := tasks[index].block;
        assert StackPlaced(Stacks()[index], mem.Length);
        var existingLow := 4 * existing.stackBase;
        var existingHigh := Wrap32(existingLow + 4 * existing.stackWords);
        if existing.address == block.address || (newLow < existingHigh && existingLow < newHigh) {
          assert Clashes(Stacks()[index], block.address, stack, stackWords);
          return true;
        }
        index := index + 1;
      }
      return false;
    }

    // ----- rtos_stack_initialize -----

    /** The fill pattern with the canary in the lowest word. */
    method FillStack(low: nat, stackWords: nat)
      requires 0 < stackWords && low + stackWords <= mem.Length
      modifies mem
      ensures mem[..] == Filled(old(mem[..]), low, stackWords)
    {
      var index := 0;
      while index < stackWords
        invariant 0 <= index <= stackWords
        invariant mem[..low] == old(mem[..low]) && mem[low + index..] == old(mem[low + index..])
        invariant forall x :: low <= x < low + index ==> mem[x] == STACK_FILL
      {
        mem[low + index] := STACK_FILL;
        index := index + 1;
      }
      mem[low] := STACK_CANARY;
    }

    /** The exception frame, pushed downwards from the end of the stack. */
    method PushEntryFrame(end: nat, tcb: Word)
      requires 8 <= end <= mem.Length
      modifies mem
      ensures mem[..] == Write(old(mem[..]), end - 8, EntryFrame(tcb, trampoline))
    {
      mem[end - 1] := XPSR_THUMB;
      mem[end - 2] := trampoline;
      mem[end - 3] := 0;
      mem[end - 4] := 0;
      mem[end - 5] := 0;
      mem[end - 6] := 0;
      mem[end - 7] := 0;
      mem[end - 8] := tcb;
      assert mem[end - 8..end] == EntryFrame(tcb, trampoline);
      assert mem[..end - 8] == old(mem[..end - 8]) && mem[end..] == old(mem[end..]);
      assert mem[..] == mem[..end - 8] + mem[end - 8..end] + mem[end..];
    }

    /** R4-R11, pushed downwards. */
    method PushZeros(end: nat) returns (sp: nat)
      requires 8 <= end <= mem.Length
      modifies mem
      ensures sp == end - 8
      ensures mem[..] == Write(old(mem[..]), sp, [0, 0, 0, 0, 0, 0, 0, 0])
    {
      sp := end;
      var index := 0;
      while index < 8
        invariant 0 <= index <= 8 && sp == end - index
        invariant mem[..sp] == old(mem[..sp]) && mem[end..] == old(mem[end..])
        invariant forall x :: sp <= x < end ==> mem[x] == 0
      {
        sp := sp - 1;
        mem[sp] := 0;
        index := index + 1;
      }
      assert mem[sp..end] == [0, 0, 0, 0, 0, 0, 0, 0];
      assert mem[..] == mem[..sp] + mem[sp..end] + mem[end..];
    }

    method LayImage(low: nat, stackWords: nat, tcb: Word) returns (sp: nat)
      requires stackWords >= MIN_STACK_WORDS && low + stackWords <= mem.Length
      modifies mem
      ensures sp == low + stackWords - 16
      ensures mem[..] == Write(old(mem[..]), low, StackImage(stackWords, tcb, trampoline))
    {
      hide Filled, Write, StackImage, EntryFrame;
      ghost var before := mem[..];
      FillStack(low, stackWords);
      ghost var filled := mem[..];
      PushEntryFrame(low + stackWords, tcb);
      ghost var framed := mem[..];
      sp := PushZeros(low + stackWords - 8);
      ImageBuilt(before, filled, framed, mem[..], low, stackWords, tcb);
    }

    method InitializeStack(block: TaskBlock)
      requires StackPlaced(block.View(), mem.Length)
      modifies mem, block`stackPointer, block`excReturn
      ensures mem[..] == Write(old(mem[..]), block.stackBase, StackImage(block.stackWords, block.address, trampoline))
      ensures block.stackPointer == StackEnd(block.View()) - 16 && block.excReturn == EXC_RETURN_THREAD_PSP
    {
      block.stackPointer := LayImage(block.stackBase, block.stackWords, block.address);
      block.excReturn := EXC_RETURN_THREAD_PSP;
    }

    lemma ImageBuilt(before: seq<Word>, filled: seq<Word>, framed: seq<Word>, after: seq<Word>,
                     low: nat, w: nat, tcb: Word)
      requires w >= MIN_STACK_WORDS && low + w <= |before|
      requires filled == Filled(before, low, w)
      requires framed == Write(filled, low + w - 8, EntryFrame(tcb, trampoline))
      requires after == Write(framed, low + w - 16, [0, 0, 0, 0, 0, 0, 0, 0])
      ensures after == Write(before, low, StackImage(w, tcb, trampoline))
    {
      var head := [STACK_CANARY] + seq(w - 17, _ => STACK_FILL);
      assert filled[..low + w - 16] == before[..low] + head;
      assert framed[..low + w - 16] == filled[..low + w - 16];
      assert framed[low + w - 8..] == EntryFrame(tcb, trampoline) + before[low + w..];
    }

    /** Power-on, with the idle task's control block and stack in place. */
    constructor (words: nat, trampoline: Word, idle: TaskBlock, idleEntry: Word, idleStack: Word)
      requires Storage(idleStack, IDLE_STACK_WORDS, words) && idleStack % 8 == 0
      ensures fresh(mem) && fresh(core) && fresh(fp) && mem.Length == words
      ensures this.idle == idle && this.idleStack == idleStack
      ensures Registered() && tasks == [] && !initialized && applicationTasks == 0
    {
      mem, core, fp := new Word[words], new Word[8], new Word[16];
      psp, lr := 0, 0;
      this.trampoline, this.idle, this.idleEntry, this.idleStack := trampoline, idle, idleEntry, idleStack;
      tasks, applicationTasks, initialized, running := [], 0, false, false;
    }

    /** rtos_task_add; only an accepted stack has to exist. */
    method TaskAdd(block: TaskBlock, entry: Word, argument: Word, stack: Word, stackWords: Word, priority: Byte)
      returns (rc: Status)
      requires Registered()
      requires AddVerdict(Stacks(), block.address, stack, stackWords, priority) == Ok ==>
                 Storage(stack, stackWords, mem.Length)
      modifies this`tasks, mem, block
      ensures Registered()
      ensures rc == AddVerdict(old(Stacks()), block.address, stack, stackWords, priority)
      ensures rc != Ok ==> Untouched(block)
      ensures rc == Ok ==> Appended(block, entry, argument, stack, stackWords, priority)
    {
      rc := CheckTask(block, stack, stackWords, priority);
      if rc == Ok {
        Register(block, entry, argument, stack, stackWords, priority);
      }
    }

    /** The first half of rtos_task_add: its checks, in its order. */
    method CheckTask(block: TaskBlock, stack: Word, stackWords: Word, priority: Byte) returns (rc: Status)
      requires Registered()
      ensures Registered() && Stacks() == old(Stacks())
      ensures rc == AddVerdict(Stacks(), block.address, stack, stackWords, priority)
    {
      if !ArgumentsValid(stack, stackWords, priority) {
        return ErrInvalid;
      }
      if |tasks| >= MAX_TASKS + 1 {
        return ErrLimit;
      }
      var clash := FindClash(block, stack, stackWords);
      rc := if clash then ErrInvalid else Ok;
    }

    method Prepare(block: TaskBlock, entry: Word, argument: Word, stack: Word, stackWords: Word)
      requires Storage(stack, stackWords, mem.Length)
      requires stackWords >= MIN_STACK_WORDS && stack % 8 == 0 && stackWords % 2 == 0
      modifies mem, block
      ensures block.function_ == entry && block.argument == argument && 4 * block.stackBase == stack
      ensures block.View() == StackTcb(block.address, stack / 4, stackWords, stack / 4 + stackWords - 16,
                                       EXC_RETURN_THREAD_PSP)
      ensures StackPlaced(block.View(), mem.Length)
      ensures mem[..] == Write(old(mem[..]), stack / 4, StackImage(stackWords, block.address, trampoline))
    {
      block.function_, block.argument := entry, argument;
      block.stackBase, block.stackWords := stack / 4, stackWords;
      InitializeStack(block);
    }

    method EnterTask(block: TaskBlock, priority: Byte)
      requires TasksFresh(tasks) && NumberedTasks() && priority as nat < PRIORITY_LEVELS
      modifies this`tasks
      ensures |tasks| == |old(tasks)| + 1 && tasks[..|old(tasks)|] == old(tasks)
      ensures tasks[|old(tasks)|].block == block && tasks[|old(tasks)|].basePriority == priority as nat
      ensures TasksFresh(tasks) && NumberedTasks() && Stacks() == old(Stacks()) + [block.View()]
    {
      var task := new Task(|tasks|, block, priority as nat);
      tasks := tasks + [task];
    }

    /** The second half of rtos_task_add, after its checks. */
    method Register(block: TaskBlock, entry: Word, argument: Word, stack: Word, stackWords: Word, priority: Byte)
      requires Registered() && Storage(stack, stackWords, mem.Length)
      requires AddVerdict(Stacks(), block.address, stack, stackWords, priority) == Ok
      modifies this`tasks, mem, block
      ensures Registered()
      ensures Appended(block, entry, argument, stack, stackWords, priority)
    {
      forall t | 0 <= t < |tasks| ensures tasks[t].block != block {
        assert !Clashes(Stacks()[t], block.address, stack, stackWords);
      }
      hide AnyClash, DistinctBlocks, Layout, FreshContext, Write, StackImage, ArgumentsValid;
      Prepare(block, entry, argument, stack, stackWords);
      assert Stacks() == old(Stacks());
      EnterTask(block, priority);
      assert !AnyClash(old(Stacks()), block.address, 4 * block.stackBase, block.stackWords);
      AddKeepsFresh(old(mem[..]), old(Stacks()), block.View(), trampoline);
    }

    twostate predicate Untouched(block: TaskBlock)
      reads this`tasks, mem, block
    {
      tasks == old(tasks) && mem[..] == old(mem[..]) && unchanged(block)
    }

    /** The task table grew by one task with these parameters. */
    twostate predicate Appended(block: TaskBlock, entry: Word, argument: Word,
                                stack: Word, stackWords: Word, priority: Byte)
      reads this`tasks, block
    {
      && |tasks| == |old(tasks)| + 1 && tasks[..|old(tasks)|] == old(tasks)
      && var task := tasks[|old(tasks)|];
         && task.block == block && task.basePriority == priority as nat
         && block.function_ == entry && block.argument == argument
         && 4 * block.stackBase == stack && block.stackWords == stackWords
    }

    // ----- rtos_init, rtos_task_create_static -----

    /** The idle task, and only the idle task, has priority 0; it comes first. */
    ghost predicate NotStarted()
      reads this`tasks, this`running, this`initialized, this`applicationTasks, Blocks(), mem, tasks
    {
      && Registered()
      && IdleFirst(tasks)
      && |tasks| == (if initialized then applicationTasks + 1 else 0) && applicationTasks <= MAX_TASKS
    }

    /** rtos_init */
    method Init(tickHz: Word, maxSyscallPriority: Byte) returns (rc: Status)
      requires !running ==> NotStarted()
      requires idleStack % 8 == 0 && Storage(idleStack, IDLE_STACK_WORDS, mem.Length)
      modifies this`tasks, this`applicationTasks, this`initialized, mem, idle
      ensures !running ==> NotStarted()
      ensures rc == if tickHz == 0 || maxSyscallPriority == 0 || maxSyscallPriority >= 15 then ErrInvalid
                    else if running then ErrState
                    else Ok
      ensures rc != Ok ==> tasks == old(tasks) && initialized == old(initialized) && mem[..] == old(mem[..])
      ensures rc == Ok ==> initialized && applicationTasks == 0 && |tasks| == 1 && tasks[0].block == idle
    {
      if tickHz == 0 || maxSyscallPriority == 0 || maxSyscallPriority >= 15 {
        return ErrInvalid;
      }
      if running {
        return ErrState;
      }
      hide DistinctBlocks;
      tasks := [];
      applicationTasks := 0;
      assert Stacks() == [];
      rc := TaskAdd(idle, idleEntry, 0, idleStack, IDLE_STACK_WORDS, 0);
      initialized := true;
    }

    /** The verdict of rtos_task_create_static, for any arguments. */
    ghost function CreateVerdict(address: Word, stack: Word, stackWords: Word, priority: Byte): Status
      reads this`tasks, this`running, this`initialized, this`applicationTasks, Blocks()
    {
      if !initialized || running then ErrState
      else if priority == 0 then ErrInvalid
      else if applicationTasks >= MAX_TASKS then ErrLimit
      else AddVerdict(Stacks(), address, stack, stackWords, priority)
    }

    /** rtos_task_create_static; only an accepted stack has to exist. */
    method CreateStatic(block: TaskBlock, entry: Word, argument: Word, stack: Word, stackWords: Word, priority: Byte)
      returns (rc: Status)
      requires !running ==> NotStarted()
      requires CreateVerdict(block.address, stack, stackWords, priority) == Ok ==>
                 Storage(stack, stackWords, mem.Length)
      modifies this`tasks, this`applicationTasks, mem, block
      ensures !running ==> NotStarted()
      ensures rc == old(CreateVerdict(block.address, stack, stackWords, priority))
      ensures rc != Ok ==> Untouched(block)
      ensures rc == Ok ==> Appended(block, entry, argument, stack, stackWords, priority)
    {
      if !initialized || running {
        rc := ErrState;
      } else if priority == 0 || applicationTasks >= MAX_TASKS {
        rc := if priority == 0 then ErrInvalid else ErrLimit;
      } else {
        rc := AddApplicationTask(block, entry, argument, stack, stackWords, priority);
      }
    }

    method AddApplicationTask(block: TaskBlock, entry: Word, argument: Word,
                              stack: Word, stackWords: Word, priority: Byte)
      returns (rc: Status)
      requires NotStarted() && initialized && priority != 0 && applicationTasks < MAX_TASKS
      requires AddVerdict(Stacks(), block.address, stack, stackWords, priority) == Ok ==>
                 Storage(stack, stackWords, mem.Length)
      modifies this`tasks, this`applicationTasks, mem, block
      ensures NotStarted()
      ensures rc == AddVerdict(old(Stacks()), block.address, stack, stackWords, priority)
      ensures rc != Ok ==> Untouched(block)
      ensures rc == Ok ==> Appended(block, entry, argument, stack, stackWords, priority)
    {
      hide Layout, AllFresh, DistinctBlocks, TasksFresh, AnyClash;
      rc := TaskAdd(block, entry, argument, stack, stackWords, priority);
      if rc == Ok {
        OneMore(old(tasks), tasks);
        applicationTasks := applicationTasks + 1;
        assert Registered();
      }
    }

    // ----- PendSV_Handler and SVC_Handler around the scheduler call -----

    ghost predicate InTable(task: Task)
      reads this`tasks
    {
      task.id < |tasks| && tasks[task.id] == task
    }

    method CopyOut(low: nat, registers: array<Word>)
      requires registers != mem && low + registers.Length <= mem.Length
      modifies mem
      ensures mem[..] == Write(old(mem[..]), low, registers[..])
    {
      var index := 0;
      while index < registers.Length
        invariant 0 <= index <= registers.Length
        invariant forall x :: low <= x < low + index ==> mem[x] == registers[x - low]
        invariant forall x :: 0 <= x < mem.Length && !(low <= x < low + index) ==> mem[x] == old(mem[x])
      {
        mem[low + index] := registers[index];
        index := index + 1;
      }
    }

    /** stmdb / vstmdb: the registers go below r0, the first one lowest. */
    method StoreDown(r0: nat, registers: array<Word>) returns (r: nat)
      requires registers != mem && registers.Length <= r0 <= mem.Length
      modifies mem
      ensures r == r0 - registers.Length
      ensures mem[..] == Write(old(mem[..]), r, registers[..])
    {
      r := r0 - registers.Length;
      CopyOut(r, registers);
    }

    /** ldmia / vldmia */
    method LoadUp(r0: nat, registers: array<Word>) returns (r: nat)
      requires registers != mem && r0 + registers.Length <= mem.Length
      modifies registers
      ensures r == r0 + registers.Length
      ensures registers[..] == Read(mem[..], r0, registers.Length)
    {
      r := r0;
      while r < r0 + registers.Length
        invariant r0 <= r <= r0 + registers.Length
        invariant registers[..r - r0] == mem[r0..r]
      {
        registers[r - r0] := mem[r];
        r := r + 1;
      }
    }

    /** The extended frame is pushed in two pieces. */
    lemma WriteTwice(m: seq<Word>, at: nat, low: seq<Word>, high: seq<Word>)
      requires at + |low| + |high| <= |m|
      ensures Write(Write(m, at + |low|, high), at, low) == Write(m, at, low + high)
    {
    }

    /** The pushes of PendSV_Handler: S16-S31 if EXC_RETURN bit 4 is clear, then R4-R11. */
    method PushFrame() returns (r0: nat)
      requires core.Length == 8 && fp.Length == 16 && mem != core && mem != fp
      requires 24 <= psp <= mem.Length
      modifies mem
      ensures var f := FrameWords(Registers(core[..], fp[..], psp, lr));
              r0 == psp - |f| && mem[..] == Write(old(mem[..]), r0, f)
    {
      hide Write;
      ghost var high := if UsesFpu(lr) then fp[..] else [];
      r0 := psp;
      WriteNothing(mem[..], r0);
      if lr / 16 % 2 == 0 {
        r0 := StoreDown(r0, fp);
      }
      assert mem[..] == Write(old(mem[..]), r0, high);
      WriteTwice(old(mem[..]), r0 - 8, core[..], high);
      r0 := StoreDown(r0, core);
    }

    lemma WriteNothing(m: seq<Word>, at: nat)
      requires at <= |m|
      ensures Write(m, at, []) == m
    {
    }

    /** PendSV_Handler up to the call of the scheduler; `task` is rtos_current_task. */
    method SaveContext(task: Task)
      requires Built() && InTable(task) && WellPlaced(View(task.id))
      modifies mem, task.block
      ensures Built() && View(task.id) == Save(old(View(task.id)))
    {
      assert StackPlaced(Stacks()[task.id], mem.Length);
      var r0 := PushFrame();
      task.block.stackPointer := r0;
      task.block.excReturn := lr;
      StackPointerMoved(task);
    }

    /** The stack pointer and EXC_RETURN of one control block changed. */
    twostate lemma StackPointerMoved(task: Task)
      requires old(Built()) && old(InTable(task)) && tasks == old(tasks)
      requires forall t :: 0 <= t < |tasks| && t != task.id ==> unchanged(tasks[t].block)
      requires task.block.stackBase == old(task.block.stackBase)
      requires task.block.stackWords == old(task.block.stackWords)
      ensures Built()
      ensures Stacks() == old(Stacks())[task.id := old(Stacks())[task.id].(
        stackPointer := task.block.stackPointer, excReturn := task.block.excReturn)]
    {
    }

    /** rtos_task_stack_valid */
    method StackIsValid(task: Task) returns (ok: bool)
      requires Built() && InTable(task)
      ensures ok == StackValid(mem[..], task.block.View())
    {
      var k := task.block;
      assert StackPlaced(Stacks()[task.id], mem.Length);
      var low := k.stackBase + 1;
      var high := k.stackBase + k.stackWords;
      ok := !(k.stackWords < MIN_STACK_WORDS || mem[k.stackBase] != STACK_CANARY
              || k.stackPointer < low || k.stackPointer > high || k.stackPointer % 2 != 0);
    }

    /** The tail of PendSV_Handler; `task` is the new rtos_current_task. */
    method LoadContext(task: Task)
      requires Built() && InTable(task) && HasContext(View(task.id), task.id)
      modifies this`psp, this`lr, core, fp
      ensures Built() && View(task.id) == Load(old(View(task.id)), task.id)
    {
      assert StackPlaced(Stacks()[task.id], mem.Length);
      var r0 := task.block.stackPointer;
      lr := task.block.excReturn;
      r0 := LoadUp(r0, core);
      if lr / 16 % 2 == 0 {
        r0 := LoadUp(r0, fp);
      }
      psp := r0;
    }

    /** SVC_Handler: like the tail of PendSV_Handler, without a floating-point frame. */
    method StartContext(task: Task)
      requires Built() && InTable(task) && FreshContext(mem[..], task.block.View(), trampoline)
      modifies this`psp, this`lr, core
      ensures Built() && HasContext(old(View(task.id)), task.id)
      ensures View(task.id) == Load(old(View(task.id)), task.id)
    {
      assert StackPlaced(Stacks()[task.id], mem.Length);
      hide StackImage, EntersTrampoline, Layout;
      FreshEnters(View(task.id), task.id, trampoline);
      var r0 := LoadUp(task.block.stackPointer, core);
      psp := r0;
      lr := task.block.excReturn;
    }
  }

  /** Eight application tasks of priority 1 to 7 can be created and no ninth; the second test of the
      limit, in rtos_task_add, never decides. */
  lemma CreateExact(board: Board, address: Word, stack: Word, stackWords: Word, priority: Byte)
    requires !board.running ==> board.NotStarted()
    ensures var verdict := board.CreateVerdict(address, stack, stackWords, priority);
      && (verdict == ErrState <==> !board.initialized || board.running)
      && (verdict == ErrLimit <==>
            board.initialized && !board.running && priority != 0 && board.applicationTasks == 8)
      && (verdict == Ok <==>
            && board.initialized && !board.running && 1 <= priority <= 7 && board.applicationTasks < 8
            && stackWords >= 128 && stackWords % 2 == 0 && stack % 8 == 0
            && !AnyClash(board.Stacks(), address, stack, stackWords))
  {
  }

  /** After any sequence of initialisations and creations every registered task's stack passes the
      stack check and restores into the trampoline with the task's own control block. */
  lemma RegisteredTask(board: Board, t: nat)
    requires board.NotStarted() && t < |board.tasks|
    ensures var c, k := board.View(0), board.Stacks()[t];
      && StackPlaced(k, |c.mem|) && StackValid(c.mem, k) && HasContext(c, t)
      && EntersTrampoline(c.mem, Load(c, t).regs, k, board.trampoline)
  {
    var c, k := board.View(0), board.Stacks()[t];
    assert StackPlaced(k, |c.mem|) && FreshContext(c.mem, k, board.trampoline);
    hide StackImage;
    FreshIsValid(c.mem, k, board.trampoline);
    FreshEnters(c, t, board.trampoline);
  }

  /** Any two of them have different control blocks, and no word of memory belongs to both stacks. */
  lemma RegisteredApart(board: Board, t: nat, u: nat, i: nat)
    requires board.NotStarted() && t < |board.tasks| && u < |board.tasks| && t != u
    ensures board.tasks[t].block != board.tasks[u].block
    ensures !(InStack(board.Stacks()[t], i) && InStack(board.Stacks()[u], i))
  {
    var stacks := board.Stacks();
    assert if t < u then stacks[t].address != stacks[u].address else stacks[u].address != stacks[t].address;
    assert if t < u then StacksDisjoint(stacks[t], stacks[u]) else StacksDisjoint(stacks[u], stacks[t]);
  }
}
