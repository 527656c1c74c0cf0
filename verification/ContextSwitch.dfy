/** Context switching over per-task stacks: what PendSV_Handler and SVC_Handler save and restore.
    A pointer to a stack word, and with it the process stack pointer, whose two low bits are always
    zero, is the number of the word: word i is at byte address 4 * i. */
module ContextSwitch {
  import opened Words

  /** The first word of the RAM, at byte address 0x2000_0000. */
  const RAM_START: nat := 0x0800_0000

  const MIN_STACK_WORDS: nat := 128
  const STACK_CANARY: Word := 0xDEAD_BEEF
  const STACK_FILL: Word := 0xA5A5_A5A5
  const EXC_RETURN_THREAD_PSP: Word := 0xFFFF_FFFD
  const XPSR_THUMB: Word := 0x0100_0000

  /** R4-R11, S16-S31, the process stack pointer and the EXC_RETURN value in LR. */
  datatype Registers = Registers(core: seq<Word>, fp: seq<Word>, psp: nat, excReturn: Word)

  /** The stack part of RTOS_Task_t, which is itself at byte address `address`. */
  datatype StackTcb = StackTcb(address: Word, stackBase: nat, stackWords: nat,
                               stackPointer: nat, excReturn: Word)

  datatype Cpu = Cpu(mem: seq<Word>, tasks: seq<StackTcb>, current: nat, regs: Registers)

  /** EXC_RETURN bit 4 is clear: the task owns an extended floating-point frame. */
  predicate UsesFpu(excReturn: Word) {
    (excReturn / 16) % 2 == 0
  }

  function StackEnd(k: StackTcb): nat {
    k.stackBase + k.stackWords
  }

  /** An aligned stack inside the RAM, which ends below the end of the address space. */
  predicate StackPlaced(k: StackTcb, memory: nat) {
    && RAM_START <= k.stackBase && k.stackBase % 2 == 0 && k.stackWords >= MIN_STACK_WORDS
    && k.stackWords % 2 == 0 && StackEnd(k) <= memory && StackEnd(k) < 0x4000_0000
  }

  predicate StacksDisjoint(k: StackTcb, l: StackTcb) {
    StackEnd(k) <= l.stackBase || StackEnd(l) <= k.stackBase
  }

  ghost predicate Layout(tasks: seq<StackTcb>, memory: nat) {
    && (forall t :: 0 <= t < |tasks| ==> StackPlaced(tasks[t], memory))
    && (forall t, u :: 0 <= t < u < |tasks| ==> StacksDisjoint(tasks[t], tasks[u]))
  }

  ghost predicate WellPlaced(c: Cpu) {
    && c.current < |c.tasks|
    && |c.regs.core| == 8 && |c.regs.fp| == 16
    && Layout(c.tasks, |c.mem|)
    && c.tasks[c.current].stackBase <= c.regs.psp <= StackEnd(c.tasks[c.current])
  }

  // ----- memory -----

  function Read(mem: seq<Word>, at: nat, n: nat): (r: seq<Word>)
    requires at + n <= |mem|
    ensures |r| == n
  {
    mem[at..at + n]
  }

  function Write(mem: seq<Word>, at: nat, words: seq<Word>): (r: seq<Word>)
    requires at + |words| <= |mem|
    ensures |r| == |mem|
  {
    mem[..at] + words + mem[at + |words|..]
  }

  lemma ReadBack(mem: seq<Word>, at: nat, words: seq<Word>)
    requires at + |words| <= |mem|
    ensures Read(Write(mem, at, words), at, |words|) == words
  {
  }

  lemma ReadElsewhere(mem: seq<Word>, at: nat, words: seq<Word>, other: nat, n: nat)
    requires at + |words| <= |mem| && other + n <= |mem|
    requires other + n <= at || at + |words| <= other
    ensures Read(Write(mem, at, words), other, n) == Read(mem, other, n)
  {
    var w := Write(mem, at, words);
    forall x | other <= x < other + n ensures w[x] == mem[x] {
    }
    assert w[other..other + n] == mem[other..other + n];
  }

  ghost function StackOf(c: Cpu, t: nat): seq<Word>
    requires t < |c.tasks| && StackPlaced(c.tasks[t], |c.mem|)
  {
    Read(c.mem, c.tasks[t].stackBase, c.tasks[t].stackWords)
  }

  // ----- saving and restoring -----

  /** What is pushed for a context, from low to high address: R4-R11, then S16-S31 if in use. */
  function FrameWords(r: Registers): seq<Word> {
    r.core + (if UsesFpu(r.excReturn) then r.fp else [])
  }

  /** PendSV_Handler up to the call of the scheduler. */
  function Save(c: Cpu): Cpu
    requires WellPlaced(c)
  {
    var f := FrameWords(c.regs);
    var sp := c.regs.psp - |f|;
    c.(mem := Write(c.mem, sp, f),
       tasks := c.tasks[c.current := c.tasks[c.current].(stackPointer := sp, excReturn := c.regs.excReturn)])
  }

  /** rtos_task_stack_valid */
  predicate StackValid(mem: seq<Word>, k: StackTcb)
    requires StackPlaced(k, |mem|)
  {
    && mem[k.stackBase] == STACK_CANARY
    && k.stackBase + 1 <= k.stackPointer <= StackEnd(k)
    && k.stackPointer % 2 == 0
  }

  /** Task t has a stored context that lies in its stack. */
  predicate HasContext(c: Cpu, t: nat)
    requires t < |c.tasks|
  {
    var k := c.tasks[t];
    k.stackBase <= k.stackPointer
    && k.stackPointer + (if UsesFpu(k.excReturn) then 24 else 8) <= StackEnd(k)
  }

  /** The tail of PendSV_Handler, with `next` as the new rtos_current_task. */
  function Load(c: Cpu, next: nat): Cpu
    requires next < |c.tasks| && StackPlaced(c.tasks[next], |c.mem|) && HasContext(c, next)
  {
    var k := c.tasks[next];
    var fpu := UsesFpu(k.excReturn);
    c.(current := next,
       regs := Registers(Read(c.mem, k.stackPointer, 8),
                         if fpu then Read(c.mem, k.stackPointer + 8, 16) else c.regs.fp,
                         k.stackPointer + (if fpu then 24 else 8), k.excReturn))
  }

  /** A switch is refused, with a stack fault, if the stack just saved to is not valid. */
  predicate SwitchFaults(c: Cpu)
    requires WellPlaced(c)
  {
    !StackValid(Save(c).mem, Save(c).tasks[c.current])
  }

  /** The whole of PendSV_Handler when it does not fault. */
  function Switch(c: Cpu, next: nat): Cpu
    requires WellPlaced(c) && next < |c.tasks| && HasContext(Save(c), next)
  {
    Load(Save(c), next)
  }

  // ----- what a task may do between switches -----

  /** Word i of the memory belongs to this stack. */
  predicate InStack(k: StackTcb, i: nat) {
    k.stackBase <= i < StackEnd(k)
  }

  /** The current task ran from c to c', with the interrupts taken meanwhile: nobody wrote another
      task's stack or the stack fields, and the stack pointer is inside the task's own stack. */
  ghost predicate TaskRan(c: Cpu, c': Cpu)
    requires WellPlaced(c)
  {
    && WellPlaced(c') && c'.tasks == c.tasks && c'.current == c.current && |c'.mem| == |c.mem|
    && forall u, i :: 0 <= u < |c.tasks| && u != c.current && 0 <= i < |c.mem| && InStack(c.tasks[u], i) ==>
         c'.mem[i] == c.mem[i]
  }

  /** Two contexts agree in everything that is preserved: S16-S31 if bit 4 of EXC_RETURN is clear. */
  predicate SameContext(r: Registers, r': Registers) {
    && r'.core == r.core && r'.psp == r.psp && r'.excReturn == r.excReturn
    && (r.excReturn / 16 % 2 == 0 ==> r'.fp == r.fp)
  }

  /** The words of a saved context: 24 if bit 4 of EXC_RETURN is clear, and 8 otherwise. */
  function ContextWords(excReturn: Word): nat {
    if excReturn / 16 % 2 == 0 then 24 else 8
  }

  // ----- fresh tasks -----

  /** What rtos_stack_initialize leaves in a stack: the canary, the fill pattern, R4-R11, and the
      exception frame R0-R3, R12, LR, PC, xPSR. */
  function StackImage(words: nat, tcb: Word, trampoline: Word): (r: seq<Word>)
    requires words >= MIN_STACK_WORDS
    ensures |r| == words
  {
    [STACK_CANARY] + seq(words - 17, _ => STACK_FILL) + [0, 0, 0, 0, 0, 0, 0, 0] + EntryFrame(tcb, trampoline)
  }

  function EntryFrame(tcb: Word, trampoline: Word): (r: seq<Word>)
    ensures |r| == 8
  {
    [tcb, 0, 0, 0, 0, 0, trampoline, XPSR_THUMB]
  }

  predicate FreshContext(mem: seq<Word>, k: StackTcb, trampoline: Word)
    requires StackPlaced(k, |mem|)
  {
    && Read(mem, k.stackBase, k.stackWords) == StackImage(k.stackWords, k.address, trampoline)
    && k.stackPointer == StackEnd(k) - 16
    && k.excReturn == EXC_RETURN_THREAD_PSP
  }

  /** An exception return with these registers enters the trampoline with the task's own control
      block in R0: it pops R0-R3, R12, LR, PC and xPSR from the process stack, in this order. Bit 24
      of xPSR is the Thumb bit, and bit 4 of EXC_RETURN says that there is no floating-point state. */
  predicate EntersTrampoline(mem: seq<Word>, r: Registers, k: StackTcb, trampoline: Word)
    requires StackPlaced(k, |mem|)
  {
    && r.core == [0, 0, 0, 0, 0, 0, 0, 0]
    && r.excReturn == 0xFFFF_FFFD
    && r.psp == StackEnd(k) - 8
    && Read(mem, r.psp, 8) == [k.address, 0, 0, 0, 0, 0, trampoline, 0x0100_0000]
  }

  lemma FreshIsValid(mem: seq<Word>, k: StackTcb, trampoline: Word)
    requires StackPlaced(k, |mem|) && FreshContext(mem, k, trampoline)
    ensures StackValid(mem, k)
  {
    var image := StackImage(k.stackWords, k.address, trampoline);
    assert image[0] == STACK_CANARY;
    assert mem[k.stackBase] == Read(mem, k.stackBase, k.stackWords)[0];
  }

  lemma FreshEnters(c: Cpu, t: nat, trampoline: Word)
    requires t < |c.tasks| && StackPlaced(c.tasks[t], |c.mem|) && FreshContext(c.mem, c.tasks[t], trampoline)
    ensures HasContext(c, t) && EntersTrampoline(c.mem, Load(c, t).regs, c.tasks[t], trampoline)
  {
    hide StackImage, Read;
    var k := c.tasks[t];
    var w := k.stackWords;
    ReadInside(c.mem, k, w - 16, 8);
    ReadInside(c.mem, k, w - 8, 8);
    ImageEnds(w, k.address, trampoline);
  }

  /** The last sixteen words of the image: R4-R11 and the exception frame. */
  lemma ImageEnds(words: nat, tcb: Word, trampoline: Word)
    requires words >= MIN_STACK_WORDS
    ensures var image := StackImage(words, tcb, trampoline);
      && image[words - 16..words - 8] == [0, 0, 0, 0, 0, 0, 0, 0]
      && image[words - 8..words] == [tcb, 0, 0, 0, 0, 0, trampoline, 0x0100_0000]
  {
  }

  // ----- one switch -----

  /** For any saved pointer: it passes exactly if the canary is there, the pointer's byte address is
      a multiple of eight, and it leaves the canary below and nothing beyond the stack above it. */
  lemma StackValidExact(mem: seq<Word>, k: StackTcb)
    requires StackPlaced(k, |mem|)
    ensures StackValid(mem, k) <==>
              && mem[k.stackBase] == 0xDEAD_BEEF && (4 * k.stackPointer) % 8 == 0
              && k.stackBase < k.stackPointer
              && forall i :: k.stackBase <= i < k.stackPointer ==> InStack(k, i)
  {
    if k.stackPointer > StackEnd(k) {
      assert !InStack(k, StackEnd(k));
    }
  }

  /** A save puts R4-R11 lowest and S16-S31 above them if bit 4 of EXC_RETURN is clear, right below
      the old stack pointer, records stack pointer and EXC_RETURN, and writes nothing else. */
  lemma SaveExact(c: Cpu)
    requires WellPlaced(c)
    ensures var n, d, k := ContextWords(c.regs.excReturn), Save(c), c.tasks[c.current];
      var sp := c.regs.psp - n;
      && 0 <= sp && c.regs.psp <= |c.mem| == |d.mem|
      && d == c.(mem := d.mem, tasks := c.tasks[c.current := k.(stackPointer := sp, excReturn := c.regs.excReturn)])
      && (forall i :: 0 <= i < 8 ==> d.mem[sp + i] == c.regs.core[i])
      && (n == 24 ==> forall i :: 0 <= i < 16 ==> d.mem[sp + 8 + i] == c.regs.fp[i])
      && (forall i :: 0 <= i < |c.mem| && !(sp <= i < c.regs.psp) ==> d.mem[i] == c.mem[i])
  {
    var f, sp := FrameWords(c.regs), c.regs.psp - ContextWords(c.regs.excReturn);
    assert StackPlaced(c.tasks[c.current], |c.mem|);
    forall i | 0 <= i < |f| ensures Save(c).mem[sp + i] == f[i] {
    }
    forall i | 0 <= i < 16 && |f| == 24 ensures Save(c).mem[sp + 8 + i] == c.regs.fp[i] {
      assert Save(c).mem[sp + (8 + i)] == f[8 + i];
    }
  }

  /** A restore takes the same words from the same places, and leaves S16-S31 alone if bit 4 of
      EXC_RETURN is set; a context can be restored exactly if these words lie in the stack. */
  lemma LoadExact(c: Cpu, t: nat)
    requires t < |c.tasks| && StackPlaced(c.tasks[t], |c.mem|) && |c.regs.fp| == 16
    ensures HasContext(c, t) <==>
              var k := c.tasks[t];
              k.stackBase <= k.stackPointer && k.stackPointer + ContextWords(k.excReturn) <= StackEnd(k)
    ensures HasContext(c, t) ==>
              var k, d := c.tasks[t], Load(c, t);
              var sp, n := k.stackPointer, ContextWords(k.excReturn);
              && d == c.(current := t, regs := d.regs) && |d.regs.core| == 8 && |d.regs.fp| == 16
              && d.regs.excReturn == k.excReturn && d.regs.psp == sp + n
              && (forall i :: 0 <= i < 8 ==> d.regs.core[i] == c.mem[sp + i])
              && (if n == 24 then forall i :: 0 <= i < 16 ==> d.regs.fp[i] == c.mem[sp + 8 + i]
                  else d.regs.fp == c.regs.fp)
  {
  }

  /** The check refuses a switch exactly when the saved words do not fit above the canary, are not
      aligned to eight bytes, or the canary was already gone. */
  lemma StackCheckExact(c: Cpu)
    requires WellPlaced(c)
    ensures SwitchFaults(c) <==>
              var k, sp := c.tasks[c.current], c.regs.psp - ContextWords(c.regs.excReturn);
              sp <= k.stackBase || sp % 2 != 0 || c.mem[k.stackBase] != 0xDEAD_BEEF
  {
    var k, sp := c.tasks[c.current], c.regs.psp - |FrameWords(c.regs)|;
    if sp > k.stackBase {
      assert Save(c).mem[k.stackBase] == c.mem[k.stackBase];
    }
  }

  lemma SavedInside(c: Cpu)
    requires WellPlaced(c)
    ensures WellPlaced(Save(c))
    ensures !SwitchFaults(c) ==>
              (HasContext(Save(c), c.current)
               && c.tasks[c.current].stackBase < c.regs.psp - |FrameWords(c.regs)|)
  {
    var s := Save(c);
    forall t | 0 <= t < |c.tasks| ensures StackPlaced(s.tasks[t], |s.mem|) {
      assert StackPlaced(c.tasks[t], |c.mem|);
    }
    forall t, u | 0 <= t < u < |c.tasks| ensures StacksDisjoint(s.tasks[t], s.tasks[u]) {
      assert StacksDisjoint(c.tasks[t], c.tasks[u]);
    }
  }

  /** A switch that does not fault leaves every other task's stack and control block alone. */
  lemma SwitchKeepsOthers(c: Cpu, t: nat)
    requires WellPlaced(c) && !SwitchFaults(c) && t < |c.tasks| && t != c.current
    ensures WellPlaced(Save(c)) && StackOf(Save(c), t) == StackOf(c, t) && Save(c).tasks[t] == c.tasks[t]
  {
    hide FrameWords, StackValid, HasContext;
    SavedInside(c);
    var k, l := c.tasks[c.current], c.tasks[t];
    assert StacksDisjoint(k, l) || StacksDisjoint(l, k);
    var f := FrameWords(c.regs);
    ReadElsewhere(c.mem, c.regs.psp - |f|, f, l.stackBase, l.stackWords);
  }

  /** Loading right after saving gives the context back. */
  lemma SaveLoad(c: Cpu)
    requires WellPlaced(c) && !SwitchFaults(c)
    ensures HasContext(Save(c), c.current) && WellPlaced(Save(c))
    ensures SameContext(c.regs, Load(Save(c), c.current).regs)
  {
    SavedInside(c);
    var f := FrameWords(c.regs);
    var sp := c.regs.psp - |f|;
    ReadBack(c.mem, sp, f);
    var m := Save(c).mem;
    assert Read(m, sp, 8) == Read(m, sp, |f|)[..8];
    if UsesFpu(c.regs.excReturn) {
      assert Read(m, sp + 8, 16) == Read(m, sp, |f|)[8..];
      assert f[8..] == c.regs.fp;
    }
    assert f[..8] == c.regs.core;
  }

  /** What is loaded depends on the task's own stack and control block only. */
  lemma LoadFromStack(c: Cpu, d: Cpu, t: nat)
    requires t < |c.tasks| && t < |d.tasks| && c.tasks[t] == d.tasks[t]
    requires StackPlaced(c.tasks[t], |c.mem|) && StackPlaced(d.tasks[t], |d.mem|)
    requires StackOf(c, t) == StackOf(d, t) && HasContext(c, t)
    ensures HasContext(d, t) && SameContext(Load(c, t).regs, Load(d, t).regs)
  {
    var k := c.tasks[t];
    SameRead(c.mem, d.mem, k, k.stackPointer, 8);
    if UsesFpu(k.excReturn) {
      SameRead(c.mem, d.mem, k, k.stackPointer + 8, 16);
    }
  }

  lemma SameRead(mem: seq<Word>, mem': seq<Word>, k: StackTcb, at: nat, n: nat)
    requires StackPlaced(k, |mem|) && StackPlaced(k, |mem'|)
    requires k.stackBase <= at && at + n <= StackEnd(k)
    requires Read(mem, k.stackBase, k.stackWords) == Read(mem', k.stackBase, k.stackWords)
    ensures Read(mem, at, n) == Read(mem', at, n)
  {
    ReadInside(mem, k, at - k.stackBase, n);
    ReadInside(mem', k, at - k.stackBase, n);
  }

  lemma ReadInside(mem: seq<Word>, k: StackTcb, o: nat, n: nat)
    requires StackPlaced(k, |mem|) && o + n <= k.stackWords
    ensures Read(mem, k.stackBase + o, n) == Read(mem, k.stackBase, k.stackWords)[o..o + n]
  {
    SliceOfSlice(mem, k.stackBase, StackEnd(k), o, n);
  }

  lemma SliceOfSlice(mem: seq<Word>, from: nat, to: nat, o: nat, n: nat)
    requires from <= to <= |mem| && from + o + n <= to
    ensures mem[from..to][o..o + n] == mem[from + o..from + o + n]
  {
    var l, r := mem[from..to][o..o + n], mem[from + o..from + o + n];
    forall i | 0 <= i < n ensures l[i] == r[i] {
    }
  }

  // ----- runs -----

  datatype CpuStep = Runs | Switches(next: nat)

  ghost predicate CpuNext(c: Cpu, step: CpuStep, c': Cpu) {
    && WellPlaced(c)
    && match step
       case Runs => TaskRan(c, c')
       case Switches(next) =>
         !SwitchFaults(c) && next < |c.tasks| && HasContext(Save(c), next) && c' == Switch(c, next)
  }

  ghost predicate IsCpuRun(states: seq<Cpu>, steps: seq<CpuStep>) {
    && |states| == |steps| + 1
    && WellPlaced(states[0])
    && forall i :: 0 <= i < |steps| ==> CpuNext(states[i], steps[i], states[i + 1])
  }

  lemma LoadWellPlaced(c: Cpu, next: nat)
    requires Layout(c.tasks, |c.mem|) && |c.regs.fp| == 16 && next < |c.tasks| && HasContext(c, next)
    ensures WellPlaced(Load(c, next))
  {
    var k := c.tasks[next];
    assert StackPlaced(k, |c.mem|);
    assert Load(c, next).tasks == c.tasks && Load(c, next).mem == c.mem;
  }

  lemma SwitchWellPlaced(c: Cpu, next: nat)
    requires WellPlaced(c) && !SwitchFaults(c) && next < |c.tasks| && HasContext(Save(c), next)
    ensures WellPlaced(Switch(c, next))
  {
    SavedInside(c);
    LoadWellPlaced(Save(c), next);
  }

  lemma StepKeepsStack(c: Cpu, step: CpuStep, c': Cpu, t: nat)
    requires CpuNext(c, step, c') && t < |c.tasks| && t != c.current
    ensures WellPlaced(c') && |c'.tasks| == |c.tasks|
    ensures c'.tasks[t] == c.tasks[t] && StackOf(c', t) == StackOf(c, t)
  {
    match step
    case Runs =>
      var l := c.tasks[t];
      var from, to := l.stackBase, StackEnd(l);
      forall x | from <= x < to ensures c'.mem[x] == c.mem[x] {
        assert InStack(c.tasks[t], x);
      }
      assert c'.mem[from..to] == c.mem[from..to];
    case Switches(next) =>
      SwitchWellPlaced(c, next);
      SwitchKeepsOthers(c, t);
  }

  /** While other tasks run and switch, a task's stack and control block stay as they are. */
  lemma {:induction false} StackKept(states: seq<Cpu>, steps: seq<CpuStep>, i: nat, j: nat, t: nat)
    requires IsCpuRun(states, steps) && i <= j < |states| && WellPlaced(states[i]) && t < |states[i].tasks|
    requires forall k :: i <= k < j ==> states[k].current != t
    ensures WellPlaced(states[j]) && t < |states[j].tasks|
    ensures states[j].tasks[t] == states[i].tasks[t] && StackOf(states[j], t) == StackOf(states[i], t)
  {
    hide TaskRan, Switch, SwitchFaults, Layout;
    if i < j {
      StackKept(states, steps, i, j - 1, t);
      StepKeepsStack(states[j - 1], steps[j - 1], states[j], t);
    }
  }

  lemma {:induction false} RunWellPlaced(states: seq<Cpu>, steps: seq<CpuStep>, i: nat)
    requires IsCpuRun(states, steps) && i < |states|
    ensures WellPlaced(states[i])
  {
    if i > 0 {
      RunWellPlaced(states, steps, i - 1);
      assert CpuNext(states[i - 1], steps[i - 1], states[i]);
      match steps[i - 1]
      case Runs =>
      case Switches(next) => SwitchWellPlaced(states[i - 1], next);
    }
  }

  /** Round trip over any interleaving: a task switched out at step i and next switched in at step
      j gets back R4-R11, PSP and EXC_RETURN, and S16-S31 if EXC_RETURN bit 4 is clear. */
  lemma ContextRoundTrip(states: seq<Cpu>, steps: seq<CpuStep>, i: nat, j: nat, t: nat)
    requires IsCpuRun(states, steps) && i < j < |steps|
    requires states[i].current == t && steps[i].Switches? && steps[j] == Switches(t)
    requires forall k :: i < k <= j ==> states[k].current != t
    ensures SameContext(states[i].regs, states[j + 1].regs)
  {
    RunWellPlaced(states, steps, i);
    RunWellPlaced(states, steps, j);
    var c, d := states[i], states[j];
    assert CpuNext(c, steps[i], states[i + 1]) && CpuNext(d, steps[j], states[j + 1]);
    SaveLoad(c);
    SwitchWellPlaced(c, steps[i].next);
    StackKept(states, steps, i + 1, j, t);
    SwitchKeepsOthers(d, t);
    LoadFromStack(Save(c), Save(d), t);
  }

  /** A switch that selects the current task again changes nothing it can see. */
  lemma SwitchToSelf(c: Cpu)
    requires WellPlaced(c) && !SwitchFaults(c)
    ensures HasContext(Save(c), c.current)
    ensures SameContext(c.regs, Switch(c, c.current).regs)
  {
    SaveLoad(c);
  }

  // ----- runs from the start -----

  ghost predicate BootReady(b: Cpu, trampoline: Word) {
    && |b.regs.fp| == 16
    && Layout(b.tasks, |b.mem|)
    && forall t :: 0 <= t < |b.tasks| ==> FreshContext(b.mem, b.tasks[t], trampoline)
  }

  /** SVC_Handler loads the first task; from then on tasks run and PendSV switches. */
  ghost predicate IsStartedRun(b: Cpu, trampoline: Word, first: nat, states: seq<Cpu>, steps: seq<CpuStep>) {
    && BootReady(b, trampoline) && first < |b.tasks| && HasContext(b, first)
    && IsCpuRun(states, steps) && states[0] == Load(b, first)
  }

  ghost predicate ContextsStored(c: Cpu) {
    forall t :: 0 <= t < |c.tasks| && t != c.current ==> HasContext(c, t)
  }

  lemma StoredAfterSave(c: Cpu)
    requires WellPlaced(c) && ContextsStored(c) && !SwitchFaults(c)
    ensures forall t :: 0 <= t < |c.tasks| ==> HasContext(Save(c), t)
  {
    SavedInside(c);
    forall t | 0 <= t < |c.tasks| && t != c.current ensures HasContext(Save(c), t) {
      assert HasContext(c, t) && Save(c).tasks[t] == c.tasks[t];
    }
  }

  lemma StepKeepsStored(c: Cpu, step: CpuStep, c': Cpu)
    requires CpuNext(c, step, c') && ContextsStored(c)
    ensures |c'.tasks| == |c.tasks| && ContextsStored(c')
  {
    match step
    case Runs =>
      forall t | 0 <= t < |c'.tasks| && t != c'.current ensures HasContext(c', t) {
        assert HasContext(c, t);
      }
    case Switches(next) =>
      StoredAfterSave(c);
      forall t | 0 <= t < |c'.tasks| && t != next ensures HasContext(c', t) {
        assert HasContext(Save(c), t);
      }
  }

  lemma StartStored(b: Cpu, trampoline: Word, first: nat)
    requires BootReady(b, trampoline) && first < |b.tasks| && HasContext(b, first)
    ensures ContextsStored(Load(b, first))
  {
    hide StackImage, EntersTrampoline;
    forall t | 0 <= t < |b.tasks| ensures HasContext(b, t) {
      assert StackPlaced(b.tasks[t], |b.mem|) && FreshContext(b.mem, b.tasks[t], trampoline);
      FreshEnters(b, t, trampoline);
    }
    assert Load(b, first).tasks == b.tasks;
  }

  lemma {:induction false} StoredThroughout(states: seq<Cpu>, steps: seq<CpuStep>, i: nat)
    requires IsCpuRun(states, steps) && i < |states| && ContextsStored(states[0])
    ensures |states[i].tasks| == |states[0].tasks| && ContextsStored(states[i])
  {
    if i > 0 {
      StoredThroughout(states, steps, i - 1);
      assert CpuNext(states[i - 1], steps[i - 1], states[i]);
      StepKeepsStored(states[i - 1], steps[i - 1], states[i]);
    }
  }

  /** Whatever ran before, every switch that does not fault can restore every task. */
  lemma EveryTaskRestorable(b: Cpu, trampoline: Word, first: nat, states: seq<Cpu>, steps: seq<CpuStep>, i: nat)
    requires IsStartedRun(b, trampoline, first, states, steps) && i < |states|
    ensures WellPlaced(states[i]) && |states[i].tasks| == |b.tasks|
    ensures !SwitchFaults(states[i]) ==> forall t :: 0 <= t < |b.tasks| ==> HasContext(Save(states[i]), t)
  {
    RunWellPlaced(states, steps, i);
    StartStored(b, trampoline, first);
    StoredThroughout(states, steps, i);
    if !SwitchFaults(states[i]) {
      StoredAfterSave(states[i]);
    }
  }

  /** A task that becomes current for the first time enters the trampoline with its own control
      block in R0, however long it waited. */
  lemma FirstEntry(b: Cpu, trampoline: Word, first: nat, states: seq<Cpu>, steps: seq<CpuStep>, i: nat, t: nat)
    requires IsStartedRun(b, trampoline, first, states, steps) && i < |states| && t < |b.tasks|
    requires states[i].current == t && forall k :: 0 <= k < i ==> states[k].current != t
    ensures WellPlaced(states[i]) && t < |states[i].tasks|
    ensures states[i].tasks[t] == b.tasks[t]
    ensures EntersTrampoline(states[i].mem, states[i].regs, b.tasks[t], trampoline)
  {
    RunWellPlaced(states, steps, i);
    assert StackPlaced(b.tasks[t], |b.mem|) && FreshContext(b.mem, b.tasks[t], trampoline);
    FreshEnters(b, t, trampoline);
    if i > 0 {
      var c := states[i - 1];
      RunWellPlaced(states, steps, i - 1);
      assert CpuNext(c, steps[i - 1], states[i]);
      StackKept(states, steps, 0, i - 1, t);
      SwitchToFresh(b, c, t, trampoline);
    }
  }

  lemma SwitchToFresh(b: Cpu, c: Cpu, t: nat, trampoline: Word)
    requires WellPlaced(c) && !SwitchFaults(c) && t < |b.tasks| && t < |c.tasks| && t != c.current
    requires StackPlaced(b.tasks[t], |b.mem|) && FreshContext(b.mem, b.tasks[t], trampoline)
    requires c.tasks[t] == b.tasks[t] && StackOf(c, t) == StackOf(b, t) && HasContext(Save(c), t)
    ensures WellPlaced(Switch(c, t)) && Switch(c, t).tasks[t] == b.tasks[t]
    ensures EntersTrampoline(Switch(c, t).mem, Switch(c, t).regs, b.tasks[t], trampoline)
  {
    SwitchWellPlaced(c, t);
    SwitchKeepsOthers(c, t);
    FreshEnters(Save(c), t, trampoline);
  }
}
