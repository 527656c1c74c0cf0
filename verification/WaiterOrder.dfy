/** Which waiter rtos_kernel_find_waiter serves. */
module WaiterOrder {
  import opened Collections
  import opened Words
  import opened KernelState
  import opened KernelSpec
  import opened Invariant
  import SchedulePreserve

  /** Two waiters of equal priority that blocked less than 2^31 blocking calls apart. */
  predicate Near(k: Tcb, l: Tcb) {
    k.past.blockedAt - l.past.blockedAt < TWO31 && l.past.blockedAt - k.past.blockedAt < TWO31
  }

  /** The waiters for o of effective priority e. */
  ghost predicate Peer(s: State, wt: WaitType, o: nat, e: nat, t: nat)
    requires t < |s.tasks|
  {
    Waits(s, t, wt, o) && s.tasks[t].eff == e
  }

  /** Between near waiters the wrapping comparison is the true order. */
  lemma NearOrder(k: Tcb, l: Tcb, blockCount: nat)
    requires k.state == l.state == Blocked && OrderOk(k, blockCount) && OrderOk(l, blockCount) && Near(k, l)
    ensures SignedLess(k.waitSequence, l.waitSequence) <==> k.past.blockedAt < l.past.blockedAt
  {
    WrapDifference(k.past.blockedAt, l.past.blockedAt);
    if k.past.blockedAt < l.past.blockedAt {
      WrapShift(k.past.blockedAt - l.past.blockedAt, 1);
    }
  }

  /** Scanning the table with the wrapping comparison keeps the oldest of the top waiters. */
  lemma {:induction false} ScanKeepsOldest(s: State, wt: WaitType, o: nat, e: nat, k: nat)
    requires OrderInv(s) && k <= |s.tasks|
    requires forall t :: 0 <= t < |s.tasks| && Waits(s, t, wt, o) ==> s.tasks[t].eff <= e
    requires forall t, u :: 0 <= t < |s.tasks| && 0 <= u < |s.tasks| && Peer(s, wt, o, e, t) && Peer(s, wt, o, e, u) ==>
      Near(s.tasks[t], s.tasks[u])
    ensures forall t :: 0 <= t < k && Peer(s, wt, o, e, t) ==>
      && BestWaiter(s, wt, o, k).Some? && Peer(s, wt, o, e, BestWaiter(s, wt, o, k).value)
      && s.tasks[BestWaiter(s, wt, o, k).value].past.blockedAt <= s.tasks[t].past.blockedAt
  {
    if k > 0 {
      ScanKeepsOldest(s, wt, o, e, k - 1);
      BestWaiterIsHighest(s, wt, o, k - 1);
      var best := BestWaiter(s, wt, o, k - 1);
      if best.Some? && Peer(s, wt, o, e, k - 1) && Peer(s, wt, o, e, best.value) {
        NearOrder(s.tasks[k - 1], s.tasks[best.value], s.blockCount);
      }
    }
  }

  /** The waiters of the priority that is served are pairwise near. */
  ghost predicate TopNear(s: State, wt: WaitType, o: nat)
    requires FindWaiter(s, wt, o).Some?
  {
    var e := s.tasks[FindWaiter(s, wt, o).value].eff;
    forall t, u :: 0 <= t < |s.tasks| && 0 <= u < |s.tasks| && Peer(s, wt, o, e, t) && Peer(s, wt, o, e, u) ==>
      Near(s.tasks[t], s.tasks[u])
  }

  /** The waiter served has the highest effective priority and, among those, blocked first in
      true order, provided those top waiters are near each other. The 32-bit counter may wrap
      between them, and the comparison need not be transitive on the rest. */
  lemma HighestThenOldest(s: State, wt: WaitType, o: nat)
    requires OrderInv(s) && FindWaiter(s, wt, o).Some? && TopNear(s, wt, o)
    ensures var w := FindWaiter(s, wt, o).value;
      && Waits(s, w, wt, o)
      && forall t :: 0 <= t < |s.tasks| && Waits(s, t, wt, o) && t != w ==>
           || s.tasks[t].eff < s.tasks[w].eff
           || (s.tasks[t].eff == s.tasks[w].eff && s.tasks[w].past.blockedAt < s.tasks[t].past.blockedAt)
  {
    var w := FindWaiter(s, wt, o).value;
    ScanKeepsOldest(s, wt, o, s.tasks[w].eff, |s.tasks|);
    forall t | 0 <= t < |s.tasks| && Waits(s, t, wt, o) && t != w && s.tasks[t].eff == s.tasks[w].eff
      ensures s.tasks[w].past.blockedAt < s.tasks[t].past.blockedAt
    {
      assert Peer(s, wt, o, s.tasks[w].eff, t);
    }
  }

  // ----- exactly when the oldest is served -----

  /** m is due for o: no waiter has a higher priority, and of its own priority it blocked first. */
  ghost predicate Due(s: State, wt: WaitType, o: nat, m: nat) {
    && m < |s.tasks| && Waits(s, m, wt, o)
    && forall t :: 0 <= t < |s.tasks| && Waits(s, t, wt, o) && t != m ==>
         || s.tasks[t].eff < s.tasks[m].eff
         || (s.tasks[t].eff == s.tasks[m].eff && s.tasks[m].past.blockedAt < s.tasks[t].past.blockedAt)
  }

  /** How many blocking calls after k the later waiter l blocked, as far as 32 bits can tell. */
  function Lag(k: Tcb, l: Tcb): Word {
    Wrap32(l.past.blockedAt - k.past.blockedAt)
  }

  /** The lags that let m win the scan: against the best of the entries before it, which m must
      beat, and against its equals behind it up to entry k, which must not beat m. */
  ghost predicate LagsAllow(s: State, wt: WaitType, o: nat, m: nat, k: nat)
    requires m < k <= |s.tasks|
  {
    var before := BestWaiter(s, wt, o, m);
    && (before.Some? && s.tasks[before.value].eff == s.tasks[m].eff ==>
          0 < Lag(s.tasks[m], s.tasks[before.value]) <= TWO31)
    && (forall t :: m < t < k && Peer(s, wt, o, s.tasks[m].eff, t) ==> Lag(s.tasks[m], s.tasks[t]) < TWO31)
  }

  /** The wrapping comparison of two waiters, in terms of their lag. */
  lemma LagDecides(k: Tcb, l: Tcb, blockCount: nat)
    requires k.state == l.state == Blocked && OrderOk(k, blockCount) && OrderOk(l, blockCount)
    ensures SignedLess(l.waitSequence, k.waitSequence) <==> Lag(k, l) >= TWO31
    ensures SignedLess(k.waitSequence, l.waitSequence) <==> 0 < Lag(k, l) <= TWO31
  {
    WrapDifference(l.past.blockedAt, k.past.blockedAt);
    WrapDifference(k.past.blockedAt, l.past.blockedAt);
    WrapNegation(l.past.blockedAt - k.past.blockedAt);
  }

  /** Once m has been passed over it never comes back, so the scan ends with m exactly if every
      single comparison with m goes its way. */
  lemma {:induction false} ScanExact(s: State, wt: WaitType, o: nat, m: nat, k: nat)
    requires OrderInv(s) && Due(s, wt, o, m) && m < k <= |s.tasks|
    ensures BestWaiter(s, wt, o, k) == Some(m) <==> LagsAllow(s, wt, o, m, k)
  {
    if k == m + 1 {
      var before := BestWaiter(s, wt, o, m);
      BestWaiterIsHighest(s, wt, o, m);
      if before.Some? {
        LagDecides(s.tasks[m], s.tasks[before.value], s.blockCount);
      }
    } else {
      ScanExact(s, wt, o, m, k - 1);
      if Waits(s, k - 1, wt, o) {
        LagDecides(s.tasks[m], s.tasks[k - 1], s.blockCount);
      }
      assert LagsAllow(s, wt, o, m, k)
        == (LagsAllow(s, wt, o, m, k - 1)
            && (Peer(s, wt, o, s.tasks[m].eff, k - 1) ==> Lag(s.tasks[m], s.tasks[k - 1]) < TWO31));
    }
  }

  /** `older` and `newer` are the only waiters for o, of equal priority. */
  ghost predicate OnlyTwo(s: State, wt: WaitType, o: nat, older: nat, newer: nat) {
    && older < |s.tasks| && newer < |s.tasks| && older != newer
    && s.tasks[older].past.blockedAt < s.tasks[newer].past.blockedAt
    && s.tasks[older].eff == s.tasks[newer].eff
    && forall t :: 0 <= t < |s.tasks| ==> (Waits(s, t, wt, o) <==> t == older || t == newer)
  }

  // ----- over runs -----

  lemma OrderThroughout(states: seq<State>, actions: seq<Action>, k: nat)
    requires IsRun(states, actions) && k < |states|
    ensures OrderInv(states[k])
  {
    SchedulePreserve.RunKeeps(states, actions, k);
  }

  /** In every state of every run: the waiter served has the highest effective priority and, among
      those, blocked first, while the top waiters' blocking calls are less than 2^31 apart. */
  lemma OldestServed(states: seq<State>, actions: seq<Action>, k: nat, wt: WaitType, o: nat)
    requires IsRun(states, actions) && k < |states|
    requires FindWaiter(states[k], wt, o).Some? && TopNear(states[k], wt, o)
    ensures var s, w := states[k], FindWaiter(states[k], wt, o).value;
      && Waits(s, w, wt, o)
      && forall t :: 0 <= t < |s.tasks| && Waits(s, t, wt, o) && t != w ==>
           || s.tasks[t].eff < s.tasks[w].eff
           || (s.tasks[t].eff == s.tasks[w].eff && s.tasks[w].past.blockedAt < s.tasks[t].past.blockedAt)
  {
    hide IsRun, OrderInv;
    OrderThroughout(states, actions, k);
    HighestThenOldest(states[k], wt, o);
  }

  /** In every state of every run, for any number of waiters: the waiter that is due is served
      exactly if the lags allow it. A wait that outlives 2^31 other blocking calls can lose its
      place (module Overtaking has a run in which it does). */
  lemma DueServedExact(states: seq<State>, actions: seq<Action>, k: nat, wt: WaitType, o: nat, m: nat)
    requires IsRun(states, actions) && k < |states| && Due(states[k], wt, o, m)
    ensures FindWaiter(states[k], wt, o) == Some(m) <==> LagsAllow(states[k], wt, o, m, |states[k].tasks|)
  {
    assert m < |states[k].tasks|;
    hide IsRun, OrderInv, Due, LagsAllow;
    OrderThroughout(states, actions, k);
    ScanExact(states[k], wt, o, m, |states[k].tasks|);
  }

  /** With two waiters of equal priority: the older is served exactly if the distance of their
      blocking calls modulo 2^32 is below 2^31, or up to 2^31 if it comes second in the table. */
  lemma OlderServedExact(states: seq<State>, actions: seq<Action>, k: nat, wt: WaitType, o: nat,
                         older: nat, newer: nat)
    requires IsRun(states, actions) && k < |states| && OnlyTwo(states[k], wt, o, older, newer)
    ensures var s := states[k];
      var d := Lag(s.tasks[older], s.tasks[newer]);
      FindWaiter(s, wt, o) == Some(older) <==> if older < newer then d < TWO31 else 0 < d <= TWO31
  {
    hide IsRun, FindWaiter;
    DueServedExact(states, actions, k, wt, o, older);
    OnlyTwoLags(states[k], wt, o, older, newer);
  }

  lemma OnlyTwoLags(s: State, wt: WaitType, o: nat, older: nat, newer: nat)
    requires OnlyTwo(s, wt, o, older, newer)
    ensures Due(s, wt, o, older)
    ensures var d := Lag(s.tasks[older], s.tasks[newer]);
      LagsAllow(s, wt, o, older, |s.tasks|) <==> if older < newer then d < TWO31 else 0 < d <= TWO31
  {
    BestWaiterIsHighest(s, wt, o, older);
    assert Waits(s, older, wt, o) && Waits(s, newer, wt, o);
    var before := BestWaiter(s, wt, o, older);
    assert before == if newer < older then Some(newer) else None;
    if older < newer {
      assert Peer(s, wt, o, s.tasks[older].eff, newer);
    }
  }
}
