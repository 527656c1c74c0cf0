/** Runs of the kernel together with the processor it runs on. */
module SystemRuns {
  import opened Words
  import opened KernelState
  import opened KernelSpec
  import opened Invariant
  import opened ContextSwitch
  import Frames
  import SchedulePreserve

  datatype Machine = Machine(kernel: State, cpu: Cpu)

  /** One step of both. At PendSV the stack check of the processor decides the kernel's step, and
      the kernel's selection decides the processor's; at any other step the current task, or an
      interrupt, runs on the processor. */
  ghost predicate Steps(m: Machine, a: Action, m': Machine) {
    && Enabled(m.kernel, a) && m'.kernel == Apply(m.kernel, a) && WellPlaced(m.cpu)
    && match a
       case PendSV(ok) =>
         && ok == !SwitchFaults(m.cpu)
         && if ok then
              && m'.kernel.current < |m.cpu.tasks| && HasContext(Save(m.cpu), m'.kernel.current)
              && m'.cpu == Switch(m.cpu, m'.kernel.current)
            else m'.cpu == Save(m.cpu)
       case _ => TaskRan(m.cpu, m'.cpu)
  }

  /** rtos_start: the kernel selects the first task, and SVC loads its fresh context. */
  ghost predicate Launches(boot: Cpu, trampoline: Word, booted: State, m: Machine) {
    && Booted(booted) && BootReady(boot, trampoline) && |boot.tasks| == |booted.tasks|
    && m.kernel == Start(booted)
    && m.kernel.current < |boot.tasks| && HasContext(boot, m.kernel.current)
    && m.cpu == Load(boot, m.kernel.current)
  }

  ghost predicate IsSystemRun(boot: Cpu, trampoline: Word, booted: State,
                              machines: seq<Machine>, actions: seq<Action>) {
    && |machines| == |actions| + 1
    && Launches(boot, trampoline, booted, machines[0])
    && forall k :: 0 <= k < |actions| ==> Steps(machines[k], actions[k], machines[k + 1])
  }

  ghost function Kernels(machines: seq<Machine>): (r: seq<State>)
    ensures |r| == |machines| && forall k :: 0 <= k < |r| ==> r[k] == machines[k].kernel
  {
    seq(|machines|, k requires 0 <= k < |machines| => machines[k].kernel)
  }

  ghost function Processors(machines: seq<Machine>): (r: seq<Cpu>)
    ensures |r| == |machines| && forall k :: 0 <= k < |r| ==> r[k] == machines[k].cpu
  {
    seq(|machines|, k requires 0 <= k < |machines| => machines[k].cpu)
  }

  /** The processor's side of each step. */
  ghost function CpuSteps(machines: seq<Machine>, actions: seq<Action>): (r: seq<CpuStep>)
    requires |machines| == |actions| + 1
    ensures |r| == |actions|
    ensures forall k :: 0 <= k < |r| ==>
      r[k] == if actions[k].PendSV? then Switches(machines[k + 1].kernel.current) else Runs
  {
    seq(|actions|, k requires 0 <= k < |actions| =>
      if actions[k].PendSV? then Switches(machines[k + 1].kernel.current) else Runs)
  }

  /** The kernel's side of a system run is a run of the kernel. */
  lemma KernelSide(boot: Cpu, trampoline: Word, booted: State, machines: seq<Machine>, actions: seq<Action>)
    requires IsSystemRun(boot, trampoline, booted, machines, actions)
    ensures IsRun(Kernels(machines), actions)
  {
    assert Initial(machines[0].kernel);
    forall k | 0 <= k < |actions|
      ensures Enabled(Kernels(machines)[k], actions[k])
      ensures Kernels(machines)[k + 1] == Apply(Kernels(machines)[k], actions[k])
    {
      assert Steps(machines[k], actions[k], machines[k + 1]);
    }
  }

  /** As long as no stack check has failed, the processor's side is a run of the processor. */
  lemma ProcessorSide(boot: Cpu, trampoline: Word, booted: State, machines: seq<Machine>, actions: seq<Action>)
    requires IsSystemRun(boot, trampoline, booted, machines, actions)
    requires forall k :: 0 <= k < |actions| ==> actions[k] != PendSV(false)
    ensures IsStartedRun(boot, trampoline, machines[0].kernel.current, Processors(machines),
                         CpuSteps(machines, actions))
  {
    var cpus, steps := Processors(machines), CpuSteps(machines, actions);
    LoadWellPlaced(boot, machines[0].kernel.current);
    forall k | 0 <= k < |steps| ensures CpuNext(cpus[k], steps[k], cpus[k + 1]) {
      assert Steps(machines[k], actions[k], machines[k + 1]);
    }
  }

  lemma StepFaults(boot: Cpu, trampoline: Word, booted: State, machines: seq<Machine>, actions: seq<Action>, k: nat)
    requires IsSystemRun(boot, trampoline, booted, machines, actions) && k < |actions|
    ensures |machines| == |actions| + 1 && machines[k].kernel.fault == FaultNone
    ensures actions[k] == PendSV(false) ==> machines[k + 1].kernel.fault == FaultStack
  {
    assert Steps(machines[k], actions[k], machines[k + 1]);
  }

  /** A failed stack check ends the run. */
  lemma FaultEnds(boot: Cpu, trampoline: Word, booted: State, machines: seq<Machine>, actions: seq<Action>, k: nat)
    requires IsSystemRun(boot, trampoline, booted, machines, actions)
    requires k < |actions| && actions[k] == PendSV(false)
    ensures k == |actions| - 1 && machines[k + 1].kernel.fault == FaultStack
  {
    hide IsSystemRun;
    StepFaults(boot, trampoline, booted, machines, actions, k);
    if k + 1 < |actions| {
      StepFaults(boot, trampoline, booted, machines, actions, k + 1);
    }
  }

  /** Only PendSV changes the current task. */
  lemma CurrentKept(s: State, a: Action)
    requires Enabled(s, a) && !a.PendSV?
    ensures Apply(s, a).current == s.current
  {
  }

  lemma TaskCountKept(s: State, a: Action)
    requires RunInv(s) && Enabled(s, a)
    ensures |Apply(s, a).tasks| == |s.tasks|
  {
    match a
    case Invoke(ctx, api) => Frames.PerformFrames(s, ctx, api);
    case ReturnFromWait =>
    case TaskReturns =>
    case TickInterrupt =>
    case PendSV(ok) => Frames.SwitchFrames(s, ok);
  }

  lemma StepAgrees(m: Machine, a: Action, m': Machine)
    requires Steps(m, a, m') && RunInv(m.kernel)
    requires |m.cpu.tasks| == |m.kernel.tasks| && (m.kernel.fault == FaultNone ==> m.cpu.current == m.kernel.current)
    ensures |m'.cpu.tasks| == |m'.kernel.tasks| == |m.cpu.tasks|
    ensures m'.kernel.fault == FaultNone ==> m'.cpu.current == m'.kernel.current
  {
    TaskCountKept(m.kernel, a);
    if !a.PendSV? {
      CurrentKept(m.kernel, a);
    }
  }

  /** Kernel and processor agree on the current task in every state that is not a fault. */
  lemma {:induction false} CurrentsAgree(boot: Cpu, trampoline: Word, booted: State,
                                         machines: seq<Machine>, actions: seq<Action>, k: nat)
    requires IsSystemRun(boot, trampoline, booted, machines, actions) && k < |machines|
    ensures RunInv(machines[k].kernel) && |machines[k].cpu.tasks| == |machines[k].kernel.tasks| == |boot.tasks|
    ensures machines[k].kernel.fault == FaultNone ==> machines[k].cpu.current == machines[k].kernel.current
  {
    hide *;
    RunInvAt(boot, trampoline, booted, machines, actions, k);
    if k == 0 {
      StartAgrees(boot, trampoline, booted, machines, actions);
    } else {
      var last := k - 1;
      CurrentsAgree(boot, trampoline, booted, machines, actions, last);
      StepAt(boot, trampoline, booted, machines, actions, last);
      StepAgrees(machines[last], actions[last], machines[k]);
    }
  }

  lemma RunInvAt(boot: Cpu, trampoline: Word, booted: State, machines: seq<Machine>, actions: seq<Action>, k: nat)
    requires IsSystemRun(boot, trampoline, booted, machines, actions) && k < |machines|
    ensures RunInv(machines[k].kernel) && |machines| == |actions| + 1
  {
    KernelSide(boot, trampoline, booted, machines, actions);
    SchedulePreserve.RunKeeps(Kernels(machines), actions, k);
  }

  lemma StepAt(boot: Cpu, trampoline: Word, booted: State, machines: seq<Machine>, actions: seq<Action>, k: nat)
    requires IsSystemRun(boot, trampoline, booted, machines, actions) && k < |actions|
    ensures |machines| == |actions| + 1 && Steps(machines[k], actions[k], machines[k + 1])
  {
  }

  lemma StartAgrees(boot: Cpu, trampoline: Word, booted: State, machines: seq<Machine>, actions: seq<Action>)
    requires IsSystemRun(boot, trampoline, booted, machines, actions)
    ensures |machines[0].cpu.tasks| == |machines[0].kernel.tasks| == |boot.tasks|
    ensures machines[0].cpu.current == machines[0].kernel.current
  {
    assert Runnable(booted.tasks[0]);
  }

  // ----- what the two sides give together -----

  /** The actions before state k, none of which failed a stack check if k is not the last state. */
  lemma Prefix(boot: Cpu, trampoline: Word, booted: State, machines: seq<Machine>, actions: seq<Action>, k: nat)
    requires IsSystemRun(boot, trampoline, booted, machines, actions) && k < |machines|
    ensures IsSystemRun(boot, trampoline, booted, machines[..k + 1], actions[..k])
  {
    var ms, acts := machines[..k + 1], actions[..k];
    forall j | 0 <= j < |acts| ensures Steps(ms[j], acts[j], ms[j + 1]) {
      assert Steps(machines[j], actions[j], machines[j + 1]);
    }
  }

  lemma NoFaultBefore(boot: Cpu, trampoline: Word, booted: State, machines: seq<Machine>, actions: seq<Action>, k: nat)
    requires IsSystemRun(boot, trampoline, booted, machines, actions)
    requires k < |machines| && machines[k].kernel.fault == FaultNone
    ensures forall j :: 0 <= j < k ==> actions[j] != PendSV(false)
  {
    hide IsSystemRun;
    StepsLength(boot, trampoline, booted, machines, actions);
    forall j | 0 <= j < k ensures actions[j] != PendSV(false) {
      if actions[j] == PendSV(false) {
        FaultEnds(boot, trampoline, booted, machines, actions, j);
      }
    }
  }

  lemma StepsLength(boot: Cpu, trampoline: Word, booted: State, machines: seq<Machine>, actions: seq<Action>)
    requires IsSystemRun(boot, trampoline, booted, machines, actions)
    ensures |machines| == |actions| + 1
  {
  }

  /** A requested switch can always be made: either the running task's stack check fails, or the
      task the kernel selects has a stored context and is loaded. */
  lemma SwitchAlwaysPossible(boot: Cpu, trampoline: Word, booted: State,
                             machines: seq<Machine>, actions: seq<Action>, k: nat) returns (m: Machine)
    requires IsSystemRun(boot, trampoline, booted, machines, actions) && k < |machines|
    requires machines[k].kernel.pending && machines[k].kernel.fault == FaultNone
    ensures WellPlaced(machines[k].cpu)
    ensures Steps(machines[k], PendSV(!SwitchFaults(machines[k].cpu)), m)
  {
    NoFaultBefore(boot, trampoline, booted, machines, actions, k);
    Prefix(boot, trampoline, booted, machines, actions, k);
    var ms, acts := machines[..k + 1], actions[..k];
    ProcessorSide(boot, trampoline, booted, ms, acts);
    EveryTaskRestorable(boot, trampoline, ms[0].kernel.current, Processors(ms), CpuSteps(ms, acts), k);
    CurrentsAgree(boot, trampoline, booted, machines, actions, k);
    m := NextMachine(machines[k]);
  }

  lemma NextMachine(m: Machine) returns (m': Machine)
    requires RunInv(m.kernel) && m.kernel.pending && m.kernel.fault == FaultNone && WellPlaced(m.cpu)
    requires |m.cpu.tasks| == |m.kernel.tasks|
    requires !SwitchFaults(m.cpu) ==> forall t :: 0 <= t < |m.cpu.tasks| ==> HasContext(Save(m.cpu), t)
    ensures Steps(m, PendSV(!SwitchFaults(m.cpu)), m')
  {
    SchedulePreserve.PreemptedKeepsWellFormed(m.kernel);
    var ok := !SwitchFaults(m.cpu);
    var s := Schedule(m.kernel, ok);
    m' := Machine(s, if ok then Switch(m.cpu, s.current) else Save(m.cpu));
  }

  lemma SwitchDone(boot: Cpu, trampoline: Word, booted: State, machines: seq<Machine>, actions: seq<Action>, j: nat)
    requires IsSystemRun(boot, trampoline, booted, machines, actions) && j < |actions| && actions[j] == PendSV(true)
    ensures |machines| == |actions| + 1
    ensures machines[j + 1].kernel.fault == FaultNone && !machines[j + 1].kernel.pending
  {
    CurrentsAgree(boot, trampoline, booted, machines, actions, j);
    assert Steps(machines[j], actions[j], machines[j + 1]);
    SchedulePreserve.PreemptedKeepsWellFormed(machines[j].kernel);
  }

  lemma AllAgree(boot: Cpu, trampoline: Word, booted: State, machines: seq<Machine>, actions: seq<Action>, j: nat)
    requires IsSystemRun(boot, trampoline, booted, machines, actions) && j < |actions|
    ensures |machines| == |actions| + 1
    ensures forall k :: 0 <= k <= j ==> machines[k].cpu.current == machines[k].kernel.current
  {
    hide IsSystemRun;
    StepsLength(boot, trampoline, booted, machines, actions);
    forall k | 0 <= k <= j ensures machines[k].cpu.current == machines[k].kernel.current {
      StepFaults(boot, trampoline, booted, machines, actions, k);
      CurrentsAgree(boot, trampoline, booted, machines, actions, k);
    }
  }

  lemma CurrentIsHighest(boot: Cpu, trampoline: Word, booted: State, machines: seq<Machine>, actions: seq<Action>,
                         k: nat)
    requires IsSystemRun(boot, trampoline, booted, machines, actions) && k < |machines|
    requires !machines[k].kernel.pending
    ensures var s := machines[k].kernel;
      && s.current < |s.tasks| && s.tasks[s.current].state == Running
      && forall t :: 0 <= t < |s.tasks| && s.tasks[t].state == Ready ==> s.tasks[t].eff <= s.tasks[s.current].eff
  {
    KernelSide(boot, trampoline, booted, machines, actions);
    SchedulePreserve.RunKeeps(Kernels(machines), actions, k);
  }

  /** A task that a switch takes off the processor finds its context again when the kernel next
      selects it, and at that moment no READY task has a higher effective priority. */
  lemma ResumesInContext(boot: Cpu, trampoline: Word, booted: State, machines: seq<Machine>, actions: seq<Action>,
                         i: nat, j: nat)
    requires IsSystemRun(boot, trampoline, booted, machines, actions) && i < j < |actions|
    requires actions[i] == PendSV(true) && actions[j] == PendSV(true)
    requires machines[j + 1].kernel.current == machines[i].kernel.current
    requires forall k :: i < k <= j ==> machines[k].kernel.current != machines[i].kernel.current
    ensures SameContext(machines[i].cpu.regs, machines[j + 1].cpu.regs)
    ensures var s := machines[j + 1].kernel;
      && s.current < |s.tasks| && s.tasks[s.current].state == Running
      && forall t :: 0 <= t < |s.tasks| && s.tasks[t].state == Ready ==> s.tasks[t].eff <= s.tasks[s.current].eff
  {
    hide Launches, Inv, RunInv, WellPlaced, Layout, SwitchFaults, HasContext, Switch, SameContext, Apply, Enabled;
    var t := machines[i].kernel.current;
    SwitchDone(boot, trampoline, booted, machines, actions, j);
    NoFaultBefore(boot, trampoline, booted, machines, actions, j + 1);
    Prefix(boot, trampoline, booted, machines, actions, j + 1);
    var ms, acts := machines[..j + 2], actions[..j + 1];
    ProcessorSide(boot, trampoline, booted, ms, acts);
    AllAgree(boot, trampoline, booted, machines, actions, j);
    ContextRoundTrip(Processors(ms), CpuSteps(ms, acts), i, j, t);
    CurrentIsHighest(boot, trampoline, booted, machines, actions, j + 1);
  }
}
