/** Bounded waiting among tasks of equal effective priority. */
module RoundRobin {
  import opened KernelState
  import opened KernelSpec
  import opened Invariant
  import opened SchedulePreserve
  import opened Frames

  /** Step k of the run is a completed context switch that selects at priority level p. */
  ghost predicate SelectsAt(states: seq<State>, actions: seq<Action>, k: nat, p: nat)
    requires k < |actions| && |states| == |actions| + 1
  {
    && actions[k] == PendSV(true)
    && states[k + 1].current < |states[k + 1].tasks|
    && states[k + 1].tasks[states[k + 1].current].eff == p
  }

  /** How many of the steps i..j select at level p. */
  ghost function Selections(states: seq<State>, actions: seq<Action>, i: nat, j: nat, p: nat): nat
    requires i <= j <= |actions| && |states| == |actions| + 1
  {
    if i == j then 0
    else Selections(states, actions, i, j - 1, p) + (if SelectsAt(states, actions, j - 1, p) then 1 else 0)
  }

  /** A selection at level p that passes over a candidate t moves the cursor strictly closer to t;
      any other selection leaves this level's cursor alone. */
  lemma SelectionMovesCloser(s: State, t: nat)
    requires RunInv(s) && s.pending
    requires t < |s.tasks| && Runnable(s.tasks[t])
    requires Schedule(s, true).current != t
    ensures var s', p, n := Schedule(s, true), s.tasks[t].eff, |s.tasks|;
      && |s'.tasks| == n && |s'.cursor| == |s.cursor| && s'.current < n && s'.cursor[p] < n
      && if s'.tasks[s'.current].eff == p
         then CyclicDistance(n, s'.cursor[p], t) < CyclicDistance(n, s.cursor[p], t)
         else s'.cursor[p] == s.cursor[p]
  {
    PreemptedKeepsWellFormed(s);
    var q := Preempted(s);
    var i := Selected(q);
    assert Runnable(q.tasks[t]);
    var n, c := |s.tasks|, q.cursor[q.tasks[i].eff];
    assert CyclicDistance(n, c, i) <= CyclicDistance(n, c, t) || q.tasks[t].eff != q.tasks[i].eff;
  }

  /** While t stays runnable at level p and is not the task switched to, the selections made at
      level p are paid for by its cyclic distance from the cursor... */
  lemma {:induction false} DistancePays(states: seq<State>, actions: seq<Action>, i: nat, j: nat, t: nat, p: nat)
    requires IsRun(states, actions) && i <= j < |states|
    requires forall k :: i <= k <= j ==>
      t < |states[k].tasks| && Runnable(states[k].tasks[t]) && states[k].tasks[t].eff == p
    requires forall k :: i <= k < j && actions[k] == PendSV(true) ==> states[k + 1].current != t
    ensures |states[i].tasks| == |states[j].tasks|
    ensures p < |states[i].cursor| && states[i].cursor[p] < |states[i].tasks|
    ensures p < |states[j].cursor| && states[j].cursor[p] < |states[j].tasks|
    ensures Selections(states, actions, i, j, p) + CyclicDistance(|states[j].tasks|, states[j].cursor[p], t)
         <= CyclicDistance(|states[i].tasks|, states[i].cursor[p], t)
  {
    hide IsRun, Enabled, Apply, TimeInv;
    RunLength(states, actions);
    RunBasics(states, actions, j);
    if i < j {
      DistancePays(states, actions, i, j - 1, t, p);
      RunStep(states, actions, j - 1);
      DistanceStep(states[j - 1], actions[j - 1], t);
    }
  }

  lemma DistanceStep(s: State, a: Action, t: nat)
    requires RunInv(s) && Enabled(s, a)
    requires t < |s.tasks| && Runnable(s.tasks[t])
    requires a == PendSV(true) ==> Apply(s, a).current != t
    ensures var s', p, n := Apply(s, a), s.tasks[t].eff, |s.tasks|;
      && |s'.tasks| == n && |s'.cursor| == |s.cursor| && s'.cursor[p] < n
      && (a == PendSV(true) ==> s'.current < n)
      && if a == PendSV(true) && s'.tasks[s'.current].eff == p
         then CyclicDistance(n, s'.cursor[p], t) < CyclicDistance(n, s.cursor[p], t)
         else s'.cursor[p] == s.cursor[p]
  {
    if a == PendSV(true) {
      SelectionMovesCloser(s, t);
    } else {
      CursorFrames(s, a);
    }
  }

  /** ...so a task that stays runnable at level p is switched to no later than at the n-th
      selection made at that level, whatever happens at the other levels in between. */
  lemma BoundedWaiting(states: seq<State>, actions: seq<Action>, i: nat, j: nat, t: nat, p: nat)
    requires IsRun(states, actions) && i <= j < |states|
    requires forall k :: i <= k <= j ==>
      t < |states[k].tasks| && Runnable(states[k].tasks[t]) && states[k].tasks[t].eff == p
    requires Selections(states, actions, i, j, p) >= |states[i].tasks|
    ensures exists k :: i <= k < j && actions[k] == PendSV(true) && states[k + 1].current == t
  {
    if forall k :: i <= k < j && actions[k] == PendSV(true) ==> states[k + 1].current != t {
      DistancePays(states, actions, i, j, t, p);
      assert false;
    }
  }
}
