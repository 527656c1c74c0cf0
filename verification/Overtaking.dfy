/** A run in which a newer waiter overtakes an older one of the same priority: between their
    blocking calls a third task blocks 2^31 - 1 times, granted each time but the last. */
module Overtaking {
  import opened Collections
  import opened Words
  import opened KernelState
  import opened KernelSpec
  import opened WaiterOrder

  // The tasks: idle, two waiters for semaphore 0, and one that keeps taking semaphore 1.
  const OLDER: nat := 1
  const NEWER: nat := 2
  const BUSY: nat := 3

  function Fresh(priority: nat): Tcb {
    Tcb(Ready, priority, priority, WaitNone, None, [], 0, false, 0, Ok, 0, Past(0, 0, None, 0, 0, 0, false))
  }

  /** Task k blocked forever on semaphore o as blocking call number n. */
  function Asleep(k: Tcb, o: nat, n: nat): Tcb {
    k.(state := Blocked, waitType := WaitSemaphore, waitObject := Some(o), waitForever := true,
       waitSequence := Wrap32(n), waitResult := Ok,
       past := k.past.(blockedAt := n, call := Some(Call(WaitSemaphore, o)), blocks := k.past.blocks + 1))
  }

  /** A task of priority 2 that has been granted g takes, the last of them blocking call number n. */
  function Granted(state: TaskState, g: nat, n: nat, call: Option<Call>): Tcb {
    Fresh(2).(state := state, waitSequence := Wrap32(n), past := Past(0, n, call, g, g, 0, true))
  }

  function Tokens(g: nat): Sem {
    Sem(0, 1, 0, g, g)
  }

  function System(older: Tcb, newer: Tcb, busy: Tcb, g: nat, current: nat, cursor: nat, n: nat, pending: bool): State {
    State([Fresh(0), older, newer, busy], [Tokens(0), Tokens(g)], [], [], current, [0, cursor, BUSY],
          Wrap32(n), 0, pending, FaultNone, 0, n)
  }

  /** The older waiter waits since blocking call 2, the busy task runs, n blocking calls so far. */
  function Busy(n: nat): State
    requires n >= 2
  {
    System(Asleep(Fresh(1), 0, 2), Fresh(1), Granted(Running, n - 1, if n == 2 then 1 else n, None),
           n - 1, BUSY, 1, n, false)
  }

  const TAKE: Action := Invoke(ThreadMode, TakeCall(1, WAIT_FOREVER))
  const WAIT: Action := Invoke(ThreadMode, TakeCall(0, WAIT_FOREVER))
  const GIVE: Action := Invoke(Isr(true), GiveFromIsrCall(1))

  // ----- single steps -----

  /** One step of a run, named by its result. */
  ghost predicate Leads(s: State, a: Action, s': State) {
    Enabled(s, a) && Apply(s, a) == s'
  }

  lemma SwitchLeads(s: State, i: nat)
    requires WellFormed(s) && s.fault == FaultNone && s.pending
    requires WellFormed(Preempted(s)) && IsSelected(Preempted(s), i)
    ensures Leads(s, PendSV(true), Dispatch(Preempted(s), i))
  {
    assert Runnable(Preempted(s).tasks[i]);
    SelectedUnique(Preempted(s), i, Selected(Preempted(s)));
  }

  lemma TakeLeads(older: Tcb, newer: Tcb, busy: Tcb, g: nat, n: nat)
    requires WellFormed(System(older, newer, busy, g, BUSY, 1, n, false)) && busy.past.call == None
    requires busy.wakeTick == 0 && busy.past.deadline == 0 && busy.buffer == []
    ensures Leads(System(older, newer, busy, g, BUSY, 1, n, false), TAKE,
                  System(older, newer, Asleep(busy, 1, n + 1), g, BUSY, 1, n + 1, true))
  {
    WrapSum(n, 1);
  }

  /** The busy task is the only waiter for semaphore 1. */
  lemma GiveLeads(s: State, busy: Tcb, g: nat, n: nat)
    requires WellFormed(s) && s.fault == FaultNone && |s.tasks| == 4 && s.sems == [Tokens(0), Tokens(g)]
    requires s.tasks[BUSY] == Asleep(busy, 1, n) && s.pending
    requires forall t :: 0 <= t < BUSY ==> !Waits(s, t, WaitSemaphore, 1)
    ensures Leads(s, GIVE, s.(sems := [Tokens(0), Tokens(g + 1)],
                              tasks := s.tasks[BUSY := WakeTcb(Asleep(busy, 1, n), Ok)]))
  {
    assert Waits(s, BUSY, WaitSemaphore, 1);
    assert FindWaiter(s, WaitSemaphore, 1) == Some(BUSY);
  }

  lemma ResumeLeads(s: State)
    requires WellFormed(s) && s.fault == FaultNone && !s.pending && s.tasks[s.current].past.call.Some?
    ensures Leads(s, ReturnFromWait, s.(tasks := s.tasks[s.current := 
      s.tasks[s.current].(past := s.tasks[s.current].past.(call := None))]))
  {
  }

  // ----- runs -----

  ghost predicate RunTo(states: seq<State>, actions: seq<Action>, s: State) {
    IsRun(states, actions) && states[|actions|] == s
  }

  lemma Extend(states: seq<State>, actions: seq<Action>, s: State, a: Action, s': State)
    returns (states': seq<State>, actions': seq<Action>)
    requires RunTo(states, actions, s) && Leads(s, a, s')
    ensures RunTo(states', actions', s')
  {
    states', actions' := states + [s'], actions + [a];
    forall k | 0 <= k < |actions'|
      ensures Enabled(states'[k], actions'[k]) && states'[k + 1] == Apply(states'[k], actions'[k])
    {
      if k < |actions| {
        assert states'[k] == states[k] && states'[k + 1] == states[k + 1] && actions'[k] == actions[k];
      }
    }
  }

  // ----- one round of the busy task: it blocks, an interrupt gives, and it is back -----

  const CALL: Option<Call> := Some(Call(WaitSemaphore, 1))

  function Slept(n: nat): State
    requires n >= 2
  {
    System(Asleep(Fresh(1), 0, 2), Fresh(1), Asleep(Busy(n).tasks[BUSY], 1, n + 1), n - 1, BUSY, 1, n + 1, true)
  }

  function Woken(state: TaskState, pending: bool, n: nat): State
    requires n >= 2
  {
    System(Asleep(Fresh(1), 0, 2), Fresh(1), Granted(state, n, n + 1, CALL), n, BUSY, 1, n + 1, pending)
  }

  lemma RoundSleeps(n: nat)
    requires n >= 2
    ensures Leads(Busy(n), TAKE, Slept(n))
  {
    TakeLeads(Asleep(Fresh(1), 0, 2), Fresh(1), Busy(n).tasks[BUSY], n - 1, n);
  }

  lemma RoundWakes(n: nat)
    requires n >= 2
    ensures Leads(Slept(n), GIVE, Woken(Ready, true, n))
  {
    GiveLeads(Slept(n), Busy(n).tasks[BUSY], n - 1, n + 1);
    assert Woken(Ready, true, n).tasks == Slept(n).tasks[BUSY := Granted(Ready, n, n + 1, CALL)];
  }

  lemma RoundSwitchesSelects(n: nat)
    requires n >= 2
    ensures var s := Woken(Ready, true, n);
      WellFormed(s) && WellFormed(Preempted(s)) && IsSelected(Preempted(s), BUSY)
  {
  }

  lemma RoundSwitches(n: nat)
    requires n >= 2
    ensures Leads(Woken(Ready, true, n), PendSV(true), Woken(Running, false, n))
  {
    RoundSwitchesSelects(n);
    hide WellFormed, IsSelected, Leads;
    SwitchLeads(Woken(Ready, true, n), BUSY);
    assert Dispatch(Preempted(Woken(Ready, true, n)), BUSY) == Woken(Running, false, n);
  }

  lemma RoundReturns(n: nat)
    requires n >= 2
    ensures Leads(Woken(Running, false, n), ReturnFromWait, Busy(n + 1))
  {
    ResumeLeads(Woken(Running, false, n));
  }

  lemma Round(states: seq<State>, actions: seq<Action>, n: nat) returns (states': seq<State>, actions': seq<Action>)
    requires n >= 2 && RunTo(states, actions, Busy(n))
    ensures RunTo(states', actions', Busy(n + 1))
  {
    hide *;
    RoundSleeps(n);
    RoundWakes(n);
    RoundSwitches(n);
    RoundReturns(n);
    states', actions' := Extend(states, actions, Busy(n), TAKE, Slept(n));
    states', actions' := Extend(states', actions', Slept(n), GIVE, Woken(Ready, true, n));
    states', actions' := Extend(states', actions', Woken(Ready, true, n), PendSV(true), Woken(Running, false, n));
    states', actions' := Extend(states', actions', Woken(Running, false, n), ReturnFromWait, Busy(n + 1));
  }

  lemma {:induction false} Rounds(states: seq<State>, actions: seq<Action>, n: nat)
    returns (states': seq<State>, actions': seq<Action>)
    requires n >= 2 && RunTo(states, actions, Busy(2))
    ensures RunTo(states', actions', Busy(n))
  {
    hide *;
    if n == 2 {
      states', actions' := states, actions;
    } else {
      states', actions' := Rounds(states, actions, n - 1);
      states', actions' := Round(states', actions', n - 1);
    }
  }

  // ----- before the rounds: the busy task sleeps, the older waiter blocks -----

  function Boot(): State {
    System(Fresh(1), Fresh(1), Fresh(2), 0, 0, 0, 0, false).(cursor := [0, 0, 0])
  }

  function BusyRuns(): State {
    System(Fresh(1), Fresh(1), Fresh(2).(state := Running), 0, BUSY, 0, 0, false)
  }

  function BusySleeps(): State {
    System(Fresh(1), Fresh(1), Asleep(Fresh(2), 1, 1), 0, BUSY, 0, 1, true)
  }

  function OlderRuns(): State {
    System(Fresh(1).(state := Running), Fresh(1), Asleep(Fresh(2), 1, 1), 0, OLDER, 1, 1, false)
  }

  function OlderWaits(): State {
    System(Asleep(Fresh(1), 0, 2), Fresh(1), Asleep(Fresh(2), 1, 1), 0, OLDER, 1, 2, true)
  }

  function BusyReady(): State {
    System(Asleep(Fresh(1), 0, 2), Fresh(1), Granted(Ready, 1, 1, CALL), 1, OLDER, 1, 2, true)
  }

  function BusyBack(): State {
    System(Asleep(Fresh(1), 0, 2), Fresh(1), Granted(Running, 1, 1, CALL), 1, BUSY, 1, 2, false)
  }

  lemma BootIsBooted()
    ensures Booted(Boot())
  {
  }

  lemma BootSelects()
    ensures WellFormed(Boot()) && IsSelected(Boot(), BUSY)
  {
  }

  lemma Starts()
    ensures Initial(BusyRuns())
  {
    BootIsBooted();
    BootSelects();
    hide Booted, IsSelected;
    StartIs(Boot(), BUSY);
    assert Dispatch(Boot(), BUSY) == BusyRuns();
  }

  lemma StartIs(b: State, i: nat)
    requires Booted(b) && IsSelected(b, i)
    ensures i < |b.tasks| && b.tasks[i].eff < |b.cursor| && Initial(Dispatch(b, i))
  {
    assert Runnable(b.tasks[i]);
    SelectedUnique(b, i, Selected(b));
    assert Start(b) == Dispatch(b, i);
  }

  lemma OpeningSleeps()
    ensures Leads(BusyRuns(), TAKE, BusySleeps())
  {
  }

  lemma OpeningSwitchesSelects()
    ensures var p := Preempted(BusySleeps()); WellFormed(BusySleeps()) && WellFormed(p) && IsSelected(p, OLDER)
  {
  }

  lemma OpeningSwitches()
    ensures Leads(BusySleeps(), PendSV(true), OlderRuns())
  {
    OpeningSwitchesSelects();
    hide WellFormed, IsSelected, Leads;
    SwitchLeads(BusySleeps(), OLDER);
    assert Dispatch(Preempted(BusySleeps()), OLDER) == OlderRuns();
  }

  lemma OpeningWaits()
    ensures Leads(OlderRuns(), WAIT, OlderWaits())
  {
    WrapSum(1, 1);
  }

  lemma OpeningWakes()
    ensures Leads(OlderWaits(), GIVE, BusyReady())
  {
    GiveLeads(OlderWaits(), Fresh(2), 0, 1);
    assert BusyReady().tasks == OlderWaits().tasks[BUSY := Granted(Ready, 1, 1, CALL)];
  }

  lemma OpeningSwitchesBackSelects()
    ensures var p := Preempted(BusyReady()); WellFormed(BusyReady()) && WellFormed(p) && IsSelected(p, BUSY)
  {
  }

  lemma OpeningSwitchesBack()
    ensures Leads(BusyReady(), PendSV(true), BusyBack())
  {
    OpeningSwitchesBackSelects();
    hide WellFormed, IsSelected, Leads;
    SwitchLeads(BusyReady(), BUSY);
    assert Dispatch(Preempted(BusyReady()), BUSY) == BusyBack();
  }

  lemma OpeningReturns()
    ensures Leads(BusyBack(), ReturnFromWait, Busy(2))
  {
    ResumeLeads(BusyBack());
  }

  lemma OpeningRun() returns (states: seq<State>, actions: seq<Action>)
    ensures RunTo(states, actions, Busy(2))
  {
    Starts();
    states, actions := [BusyRuns()], [];
    assert RunTo(states, actions, BusyRuns());
    hide *;
    OpeningSleeps();
    OpeningSwitches();
    OpeningWaits();
    OpeningWakes();
    OpeningSwitchesBack();
    OpeningReturns();
    states, actions := Extend(states, actions, BusyRuns(), TAKE, BusySleeps());
    states, actions := Extend(states, actions, BusySleeps(), PendSV(true), OlderRuns());
    states, actions := Extend(states, actions, OlderRuns(), WAIT, OlderWaits());
    states, actions := Extend(states, actions, OlderWaits(), GIVE, BusyReady());
    states, actions := Extend(states, actions, BusyReady(), PendSV(true), BusyBack());
    states, actions := Extend(states, actions, BusyBack(), ReturnFromWait, Busy(2));
  }

  // ----- after the rounds: the busy task sleeps again, the newer waiter blocks -----

  function NewerRuns(n: nat): State
    requires n >= 2
  {
    System(Asleep(Fresh(1), 0, 2), Fresh(1).(state := Running), Asleep(Busy(n).tasks[BUSY], 1, n + 1),
           n - 1, NEWER, 2, n + 1, false)
  }

  /** Both wait: the older since blocking call 2, the newer since n + 2. */
  function BothWait(n: nat): State
    requires n >= 2
  {
    System(Asleep(Fresh(1), 0, 2), Asleep(Fresh(1), 0, n + 2), Asleep(Busy(n).tasks[BUSY], 1, n + 1),
           n - 1, NEWER, 2, n + 2, true)
  }

  lemma NewerStartsSelects(n: nat)
    requires n >= 2
    ensures var p := Preempted(Slept(n)); WellFormed(Slept(n)) && WellFormed(p) && IsSelected(p, NEWER)
  {
  }

  lemma NewerStarts(n: nat)
    requires n >= 2
    ensures Leads(Slept(n), PendSV(true), NewerRuns(n))
  {
    NewerStartsSelects(n);
    hide WellFormed, IsSelected, Leads;
    SwitchLeads(Slept(n), NEWER);
    assert Dispatch(Preempted(Slept(n)), NEWER) == NewerRuns(n);
  }

  lemma NewerWaits(n: nat)
    requires n >= 2
    ensures Leads(NewerRuns(n), WAIT, BothWait(n))
  {
    WrapSum(n + 1, 1);
  }

  /** For every n there is a run after which the two wait, n blocking calls apart. */
  lemma BothWaitRun(n: nat) returns (states: seq<State>, actions: seq<Action>)
    requires n >= 2
    ensures RunTo(states, actions, BothWait(n))
  {
    hide *;
    states, actions := OpeningRun();
    states, actions := Rounds(states, actions, n);
    RoundSleeps(n);
    NewerStarts(n);
    NewerWaits(n);
    states, actions := Extend(states, actions, Busy(n), TAKE, Slept(n));
    states, actions := Extend(states, actions, Slept(n), PendSV(true), NewerRuns(n));
    states, actions := Extend(states, actions, NewerRuns(n), WAIT, BothWait(n));
  }

  /** A run in which the older waiter is due and the newer one is served: their blocking calls are
      2^31 apart. */
  lemma NewerOvertakes() returns (states: seq<State>, actions: seq<Action>)
    ensures IsRun(states, actions)
    ensures var s := states[|actions|];
      && |s.tasks| == 4 && Due(s, WaitSemaphore, 0, OLDER) && Waits(s, NEWER, WaitSemaphore, 0)
      && s.tasks[OLDER].eff == s.tasks[NEWER].eff
      && s.tasks[NEWER].past.blockedAt == s.tasks[OLDER].past.blockedAt + TWO31
      && FindWaiter(s, WaitSemaphore, 0) == Some(NEWER)
  {
    states, actions := BothWaitRun(TWO31);
    var s := BothWait(TWO31);
    assert Waits(s, OLDER, WaitSemaphore, 0) && Waits(s, NEWER, WaitSemaphore, 0);
    DueServedExact(states, actions, |actions|, WaitSemaphore, 0, OLDER);
    assert Peer(s, WaitSemaphore, 0, 1, NEWER);
    assert Lag(s.tasks[OLDER], s.tasks[NEWER]) == TWO31;
  }
}
