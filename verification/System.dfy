/** The kernel on its processor: rtos_start and PendSV, where the scheduler's choice and the
    context switch meet. */
module SystemCode {
  import opened Words
  import opened Collections
  import opened KernelState
  import opened KernelSpec
  import opened Invariant
  import opened ContextSwitch
  import opened Ring
  import opened Objects
  import opened KernelCode
  import opened BoardCode
  import opened SystemRuns
  import SchedulePreserve

  /** A scheduling step faults exactly when the stack check failed. */
  lemma ScheduleResult(s: State, ok: bool)
    requires Inv(s) && s.pending && s.fault == FaultNone
    ensures Enabled(s, PendSV(ok)) && Apply(s, PendSV(ok)) == Schedule(s, ok) && Inv(Schedule(s, ok))
    ensures WellFormed(Schedule(s, ok)) && Schedule(s, ok).fault == if ok then FaultNone else FaultStack
    ensures !ok ==> Schedule(s, ok).current == s.current
  {
    SchedulePreserve.StepKeeps(s, PendSV(ok));
    SchedulePreserve.PreemptedKeepsWellFormed(s);
    assert Runnable(Preempted(s).tasks[0]);
  }

  /** Saving, changing rtos_current_task and loading make one switch. */
  lemma SwitchIsStep(c: Cpu, next: nat)
    requires WellPlaced(c) && ContextsStored(c) && !SwitchFaults(c) && next < |c.tasks|
    ensures var m := Save(c).(current := next);
            HasContext(Save(c), next) && HasContext(m, next) && Load(m, next) == Switch(c, next)
    ensures CpuNext(c, Switches(next), Switch(c, next))
    ensures WellPlaced(Switch(c, next)) && ContextsStored(Switch(c, next))
  {
    StoredAfterSave(c);
    SwitchWellPlaced(c, next);
    StepKeepsStored(c, Switches(next), Switch(c, next));
  }

  /** Loading a fresh task leaves the processor well placed and every other task restorable. */
  lemma LaunchIsReady(b: Cpu, trampoline: Word, first: nat)
    requires BootReady(b, trampoline) && first < |b.tasks|
    ensures HasContext(b, first) && WellPlaced(Load(b, first)) && ContextsStored(Load(b, first))
  {
    FreshEnters(b, first, trampoline);
    LoadWellPlaced(b, first);
    StartStored(b, trampoline, first);
  }

  lemma InvariantIsWellFormed(s: State)
    requires Inv(s)
    ensures WellFormed(s)
  {
  }

  /** A running system. */
  class System {
    const board: Board
    const kernel: Kernel

    constructor (board: Board, kernel: Kernel)
      ensures this.board == board && this.kernel == kernel
    {
      this.board, this.kernel := board, kernel;
    }

    /** The processor with the kernel's current task. */
    ghost function Processor(): Cpu
      reads board, board.Blocks(), board.mem, board.core, board.fp, kernel
    {
      board.View(kernel.current.id)
    }

    /** The running task's stack pointer is in its stack, and every other task has a stored context. */
    ghost predicate Runs()
      reads board, board.Blocks(), board.mem, board.core, board.fp
      reads kernel, kernel.cursor, kernel.Storages(), kernel.tasks, kernel.sems, kernel.mutexes, kernel.queues
    {
      KernelRuns() && WellPlaced(Processor()) && ContextsStored(Processor())
    }

    /** The kernel's tasks are the board's, and its data is disjoint from memory and registers. */
    ghost predicate KernelRuns()
      reads board, board.Blocks(), board.mem, board.core, board.fp
      reads kernel, kernel.cursor, kernel.Storages(), kernel.tasks, kernel.sems, kernel.mutexes, kernel.queues
    {
      && board.running && board.Built() && kernel.tasks == board.tasks
      && kernel.Valid()
      && board.Hardware() !! {kernel.cursor} + kernel.Storages()
    }

    /** Kernel and processor as the machine of the system's runs. */
    ghost function Snapshot(): Machine
      requires kernel.Linked()
      reads board, board.Blocks(), board.mem, board.core, board.fp
      reads kernel, kernel.cursor, kernel.Storages(), kernel.tasks, kernel.sems, kernel.mutexes, kernel.queues
    {
      Machine(kernel.View(), Processor())
    }

    /** The running task's own instructions: they reach neither the kernel's data nor another
        task's stack, and the system goes on running. */
    twostate lemma TaskRuns()
      requires old(Runs())
      requires unchanged(kernel, kernel.cursor, kernel.tasks, kernel.sems, kernel.mutexes, kernel.queues)
      requires unchanged(old(kernel.Storages()))
      requires board.tasks == old(board.tasks) && board.running
      requires TaskRan(old(Processor()), Processor())
      ensures Runs() && kernel.View() == old(kernel.View())
    {
      kernel.Kept();
      StepKeepsStored(old(Processor()), ContextSwitch.Runs, Processor());
    }

    /** The code of any enabled action but PendSV takes the kernel's step, and every task can still
        be switched to. */
    method KernelStep(a: Action)
      requires Runs() && Inv(kernel.View()) && Enabled(kernel.View(), a) && !a.PendSV?
      modifies kernel, kernel.cursor, kernel.tasks, kernel.sems, kernel.mutexes, kernel.Storages()
      modifies kernel.queues`head, kernel.queues`tail, kernel.queues`count
      modifies kernel.queues`accepted, kernel.queues`delivered
      ensures Runs() && Inv(kernel.View()) && Steps(old(Snapshot()), a, Snapshot())
    {
      hide Inv, Enabled, Apply, WellFormed, Board.Built, Board.View, WellPlaced, ContextsStored;
      CurrentKept(kernel.View(), a);
      StepOnBoard(a);
      InvariantIsWellFormed(kernel.View());
    }

    /** The kernel's code does not reach the board's memory and registers. */
    method StepOnBoard(a: Action)
      requires kernel.Linked() && Inv(kernel.View()) && Enabled(kernel.View(), a)
      requires board.Built() && {board.mem, board.core, board.fp} !! {kernel.cursor} + kernel.Storages()
      modifies kernel, kernel.cursor, kernel.tasks, kernel.sems, kernel.mutexes, kernel.Storages()
      modifies kernel.queues`head, kernel.queues`tail, kernel.queues`count
      modifies kernel.queues`accepted, kernel.queues`delivered
      ensures kernel.Linked() && Inv(kernel.View()) && kernel.View() == Apply(old(kernel.View()), a)
      ensures board.Built() && kernel.Storages() == old(kernel.Storages())
      ensures forall t :: board.View(t) == old(board.View(t))
    {
      hide Inv, Enabled, Apply, Kernel.View, Kernel.Linked, Board.Built, Board.View;
      kernel.Step(a);
      kernel.StoragesKept();
      board.Kept();
    }

    /** PendSV_Handler: saves the current context, lets the kernel select, and restores. It takes
        the kernel's PendSV step, with a stack fault exactly when the saved frame does not fit; and
        without a fault it is a switch of the processor to the task the kernel selected. */
    method PendSVHandler()
      requires Runs() && Inv(kernel.View()) && kernel.switchPending && kernel.fault == FaultNone
      modifies board, board.Blocks(), board.mem, board.core, board.fp
      modifies kernel`current, kernel`fault, kernel`switchPending, kernel.cursor, kernel.tasks
      ensures KernelRuns() && Inv(kernel.View())
      ensures kernel.View() == Schedule(old(kernel.View()), !old(SwitchFaults(Processor())))
      ensures kernel.fault == if old(SwitchFaults(Processor())) then FaultStack else FaultNone
      ensures kernel.fault == FaultNone ==>
                Runs() && CpuNext(old(Processor()), Switches(kernel.current.id), Processor())
      ensures Steps(old(Snapshot()), PendSV(!old(SwitchFaults(Processor()))), Snapshot())
    {
      hide Inv, Enabled, Apply, Schedule, WellFormed;
      ghost var before := Processor();
      var ok := SaveCurrent();
      ScheduleResult(kernel.View(), ok);
      Reschedule(ok);
      if ok {
        SwitchIsStep(before, kernel.current.id);
        RestoreCurrent();
      }
    }

    method RestoreCurrent()
      requires KernelRuns() && HasContext(Processor(), kernel.current.id)
      modifies board`psp, board`lr, board.core, board.fp
      ensures KernelRuns() && kernel.View() == old(kernel.View())
      ensures Processor() == Load(old(Processor()), kernel.current.id)
    {
      board.LoadContext(kernel.current);
      kernel.Kept();
    }

    method SaveCurrent() returns (ok: bool)
      requires Runs()
      modifies board.mem, board.Blocks()
      ensures KernelRuns() && kernel.View() == old(kernel.View())
      ensures Processor() == Save(old(Processor())) && (ok <==> !SwitchFaults(old(Processor())))
    {
      var task := kernel.current;
      board.SaveContext(task);
      ok := board.StackIsValid(task);
      kernel.Kept();
    }

    method Reschedule(stackValid: bool)
      requires KernelRuns()
      modifies kernel`current, kernel`fault, kernel`switchPending, kernel.cursor, kernel.tasks
      requires WellFormed(Schedule(kernel.View(), stackValid))
      ensures KernelRuns() && kernel.View() == Schedule(old(kernel.View()), stackValid)
      ensures Processor() == old(Processor()).(current := kernel.current.id)
    {
      kernel.ScheduleFromPendsv(stackValid);
      board.Kept();
    }

    /** The processor has just entered the kernel's current task from the boot state b. */
    ghost predicate Launched(b: Cpu)
      reads board, board.Blocks(), board.mem, board.core, board.fp, kernel
    {
      && BootReady(b, board.trampoline)
      && kernel.current.id < |b.tasks| && HasContext(b, kernel.current.id)
      && Processor() == Load(b, kernel.current.id)
    }

    /** The processor's half of rtos_start: SVC_Handler enters the first task. */
    method LaunchProcessor(ghost boot: Cpu)
      requires kernel.tasks == board.tasks && kernel.Valid()
      requires board.Hardware() !! {kernel.cursor} + kernel.Storages()
      requires board.Built() && board.View(0) == boot && BootReady(boot, board.trampoline)
      modifies board`running, board`psp, board`lr, board.core
      ensures KernelRuns() && kernel.View() == old(kernel.View()) && Launched(boot)
    {
      LaunchIsReady(boot, board.trampoline, kernel.current.id);
      assert FreshContext(boot.mem, boot.tasks[kernel.current.id], board.trampoline);
      board.running := true;
      board.StartContext(kernel.current);
      kernel.Kept();
    }
  }

  /** The kernel's half of rtos_start: the first task is selected and RUNNING. */
  method LaunchKernel(board: Board, sems: seq<Semaphore>, mutexes: seq<Mutex>, queues: seq<Queue>)
    returns (k: Kernel, ghost booted: State)
    requires board.NotStarted() && board.initialized && board.applicationTasks > 0
    requires Kernel.ObjectsStartable(sems, mutexes, queues)
    modifies board.tasks
    ensures fresh(k) && fresh(k.cursor) && k.tasks == board.tasks && k.queues == queues
    ensures k.Valid() && Booted(booted) && k.View() == KernelSpec.Start(booted)
  {
    hide Layout, DistinctBlocks, AllFresh, WellFormed, Booted, Initial, Inv;
    k := new Kernel(board.tasks, sems, mutexes, queues, PRIORITY_LEVELS);
    booted := k.View();
    k.StartFirst();
    InitialWellFormed(k.View());
  }

  lemma InitialWellFormed(s: State)
    requires Initial(s)
    ensures WellFormed(s)
  {
    SchedulePreserve.InitialInv(s);
    assert RunInv(s);
  }

  method Launch(board: Board, sems: seq<Semaphore>, mutexes: seq<Mutex>, queues: seq<Queue>)
    returns (system: System, ghost booted: State)
    requires board.NotStarted() && board.initialized && board.applicationTasks > 0
    requires Kernel.ObjectsStartable(sems, mutexes, queues)
    requires forall q :: q in queues ==> q.storage as object !in board.Hardware()
    modifies board`running, board`psp, board`lr, board.core, board.tasks
    ensures system.board == board && system.Runs()
    ensures Launches(old(board.View(0)), board.trampoline, booted, system.Snapshot())
  {
    hide Layout, AllFresh, TasksFresh, WellFormed, Booted, BootReady, WellPlaced, ContextsStored;
    ghost var boot := board.View(0);
    RegisteredIsReady(board);
    var k;
    k, booted := LaunchKernel(board, sems, mutexes, queues);
    StoragesApart(board, k);
    board.Kept();
    label launched:
    system := new System(board, k);
    k.Kept@launched();
    board.Kept@launched();
    system.LaunchProcessor(boot);
    LaunchIsReady(boot, board.trampoline, k.current.id);
    StartKeepsCount(booted);
  }

  lemma StartKeepsCount(booted: State)
    requires Booted(booted)
    ensures |KernelSpec.Start(booted).tasks| == |booted.tasks|
  {
    assert Runnable(booted.tasks[0]);
  }

  lemma StoragesApart(board: Board, k: Kernel)
    requires forall q :: q in k.queues ==> q.storage as object !in board.Hardware()
    requires k.cursor as object !in board.Hardware()
    ensures board.Hardware() !! {k.cursor} + k.Storages()
  {
  }

  /** rtos_start, up to the first instruction of the first task when the result is Ok. `hookFree`
      and `reloadFits` are the verdicts of the two calls into the tick driver. */
  method Start(board: Board, sems: seq<Semaphore>, mutexes: seq<Mutex>, queues: seq<Queue>,
               hookFree: bool, reloadFits: bool)
    returns (rc: Status, system: System?, ghost booted: Option<State>)
    requires !board.running ==> board.NotStarted()
    requires Kernel.ObjectsStartable(sems, mutexes, queues)
    requires forall q :: q in queues ==> q.storage as object !in board.Hardware()
    modifies board`running, board`psp, board`lr, board.core, board.tasks
    ensures rc == if old(!board.initialized || board.running || board.applicationTasks == 0) then ErrState
                  else if !hookFree then ErrState
                  else if !reloadFits then ErrInvalid
                  else Ok
    ensures rc != Ok ==> board.running == old(board.running)
    ensures rc == Ok ==>
      && system != null && system.board == board && system.Runs()
      && booted.Some? && Launches(old(board.View(0)), board.trampoline, booted.value, system.Snapshot())
  {
    system, booted := null, None;
    if !board.initialized || board.running || board.applicationTasks == 0 || !hookFree {
      rc := ErrState;
    } else if !reloadFits {
      rc := ErrInvalid;
    } else {
      ghost var b;
      system, b := Launch(board, sems, mutexes, queues);
      rc, booted := Ok, Some(b);
    }
  }

  lemma RegisteredIsReady(board: Board)
    requires board.Registered()
    ensures BootReady(board.View(0), board.trampoline)
  {
  }
}
