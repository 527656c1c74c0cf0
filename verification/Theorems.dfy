/** What every run of the kernel satisfies. */
module Theorems {
  import opened Inheritance
  import opened KernelState
  import opened KernelSpec
  import opened SchedulePreserve
  import opened Frames

  // ----- scheduling and priorities -----

  /** Whenever no switch is pending, the current task is the one RUNNING task and no READY task
      has a higher effective priority. */
  lemma HighestRuns(states: seq<State>, actions: seq<Action>, k: nat)
    requires IsRun(states, actions) && k < |states| && !states[k].pending
    ensures var s := states[k];
      && s.current < |s.tasks| && s.tasks[s.current].state == Running
      && forall t :: 0 <= t < |s.tasks| && t != s.current ==>
           s.tasks[t].state != Running
           && (s.tasks[t].state == Ready ==> s.tasks[t].eff <= s.tasks[s.current].eff)
  {
    RunKeeps(states, actions, k);
  }

  /** In every state, switch pending or not, each stored effective priority is the maximum base
      priority over all tasks that reach the task through chains of mutex waits. */
  lemma PrioritiesAgree(states: seq<State>, actions: seq<Action>, k: nat, t: nat) returns (u: nat)
    requires IsRun(states, actions) && k < |states| && t < |states[k].tasks|
    ensures var s := states[k];
      && u < |s.tasks| && Reaches(Edges(s), u, t) && s.tasks[u].base == s.tasks[t].eff
      && forall v :: 0 <= v < |s.tasks| && Reaches(Edges(s), v, t) ==> s.tasks[v].base <= s.tasks[t].eff
  {
    RunKeeps(states, actions, k);
    var s := states[k];
    u := InheritedAttained(Bases(s), Edges(s), t);
    assert Effs(s)[t] == s.tasks[t].eff;
    forall v | 0 <= v < |s.tasks| && Reaches(Edges(s), v, t)
      ensures s.tasks[v].base <= s.tasks[t].eff
    {
      MaxReachingBound(Bases(s), Edges(s), t, |s.tasks|, v);
    }
  }

  /** No inversion by unrelated tasks: if h is blocked through a chain of mutexes whose last owner
      can run and no switch is pending, the running task's priority is at least h's own. */
  lemma NoInversion(states: seq<State>, actions: seq<Action>, k: nat, h: nat, o: nat)
    requires IsRun(states, actions) && k < |states| && !states[k].pending
    requires h < |states[k].tasks| && o < |states[k].tasks|
    requires Reaches(Edges(states[k]), h, o) && Runnable(states[k].tasks[o])
    ensures states[k].current < |states[k].tasks|
    ensures states[k].tasks[h].base <= states[k].tasks[states[k].current].eff
  {
    HighestRuns(states, actions, k);
    var u := PrioritiesAgree(states, actions, k, o);
  }

  /** A task whose function has returned never runs again: its control block stays as it is,
      effective priority aside. */
  lemma {:induction false} TerminatedForGood(states: seq<State>, actions: seq<Action>, i: nat, j: nat, t: nat)
    requires IsRun(states, actions) && i <= j < |states|
    requires t < |states[i].tasks| && states[i].tasks[t].state == Terminated
    ensures t < |states[j].tasks| && SameUpToEff(states[i].tasks[t], states[j].tasks[t])
    ensures states[j].current == t ==> states[j].pending
  {
    if i < j {
      var last := j - 1;
      TerminatedForGood(states, actions, i, last, t);
      RunStep(states, actions, last);
      TerminatedStep(states[last], actions[last], t);
    }
    RunKeeps(states, actions, j);
  }

  /** The idle task can always be selected, so selection never comes up empty. */
  lemma SelectionNeverFails(states: seq<State>, actions: seq<Action>, k: nat)
    requires IsRun(states, actions) && k < |states|
    ensures states[k].fault != FaultKernelInvariant
    ensures WellFormed(states[k]) && Runnable(states[k].tasks[0]) && states[k].tasks[0].base == 0
    ensures AnyRunnable(Preempted(states[k]))
  {
    RunKeeps(states, actions, k);
    PreemptedKeepsWellFormed(states[k]);
  }
}
