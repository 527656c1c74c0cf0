/** Priority inheritance as a graph problem: task i has a base priority and, while it is blocked
    on an owned mutex, one successor, the owner. */
module Inheritance {
  import opened Collections

  /** A wait graph: `next[i]` is the owner of the mutex that task i is blocked on, if any. */
  ghost predicate IsGraph(base: seq<nat>, next: seq<Option<nat>>) {
    && |base| == |next|
    && forall i :: 0 <= i < |next| && next[i].Some? ==> next[i].value < |next|
  }

  /** The task reached from `u` after following `k` waiter-to-owner edges. */
  ghost function Follow(next: seq<Option<nat>>, u: nat, k: nat): Option<nat> {
    if k == 0 then Some(u)
    else match Follow(next, u, k - 1)
         case None => None
         case Some(v) => if v < |next| then next[v] else None
  }

  /** `u` is `t` or is blocked through a chain of mutexes that ends at `t`. */
  ghost predicate Reaches(next: seq<Option<nat>>, u: nat, t: nat) {
    exists k: nat :: Follow(next, u, k) == Some(t)
  }

  /** The largest base priority among the first `m` tasks that reach `t`. */
  ghost function MaxReaching(base: seq<nat>, next: seq<Option<nat>>, t: nat, m: nat): (p: nat)
    requires m <= |base|
  {
    if m == 0 then 0
    else
      var q := MaxReaching(base, next, t, m - 1);
      if Reaches(next, m - 1, t) && base[m - 1] > q then base[m - 1] else q
  }

  /** The priority `t` should run at: the maximum base priority over every task that reaches it. */
  ghost function Inherited(base: seq<nat>, next: seq<Option<nat>>, t: nat): nat {
    MaxReaching(base, next, t, |base|)
  }

  lemma {:induction false} MaxReachingBound(base: seq<nat>, next: seq<Option<nat>>, t: nat, m: nat, u: nat)
    requires u < m <= |base| && Reaches(next, u, t)
    ensures base[u] <= MaxReaching(base, next, t, m)
  {
    if u < m - 1 {
      MaxReachingBound(base, next, t, m - 1, u);
    }
  }

  lemma {:induction false} MaxReachingAttained(base: seq<nat>, next: seq<Option<nat>>, t: nat, m: nat)
    returns (u: nat)
    requires m <= |base|
    requires MaxReaching(base, next, t, m) > 0
    ensures u < m && Reaches(next, u, t) && base[u] == MaxReaching(base, next, t, m)
  {
    if Reaches(next, m - 1, t) && base[m - 1] == MaxReaching(base, next, t, m) {
      u := m - 1;
    } else {
      u := MaxReachingAttained(base, next, t, m - 1);
    }
  }

  ghost function InheritedAll(base: seq<nat>, next: seq<Option<nat>>): (r: seq<nat>)
    ensures |r| == |base|
    ensures forall t :: 0 <= t < |base| ==> r[t] == Inherited(base, next, t)
  {
    seq(|base|, (t: nat) => Inherited(base, next, t))
  }

  lemma Follows(next: seq<Option<nat>>, u: nat, k: nat, t: nat)
    requires Follow(next, u, k) == Some(t)
    ensures Reaches(next, u, t)
  {
  }

  /** Inherited(t) is attained, so it is a base priority of some task that reaches t. */
  lemma InheritedAttained(base: seq<nat>, next: seq<Option<nat>>, t: nat) returns (u: nat)
    requires t < |base|
    ensures u < |base| && Reaches(next, u, t) && base[u] == Inherited(base, next, t)
  {
    Follows(next, t, 0, t);
    MaxReachingBound(base, next, t, |base|, t);
    if Inherited(base, next, t) == 0 {
      u := t;
    } else {
      u := MaxReachingAttained(base, next, t, |base|);
    }
  }

  /** At least the base priority everywhere, and an owner is never below its waiter. */
  ghost predicate Closed(base: seq<nat>, next: seq<Option<nat>>, eff: seq<nat>)
    requires IsGraph(base, next) && |eff| == |base|
  {
    && (forall t :: 0 <= t < |base| ==> base[t] <= eff[t])
    && (forall v :: 0 <= v < |base| && next[v].Some? ==> eff[v] <= eff[next[v].value])
  }

  lemma ReachesSelf(next: seq<Option<nat>>, t: nat)
    ensures Reaches(next, t, t)
  {
    Follows(next, t, 0, t);
  }

  lemma ReachesOnward(next: seq<Option<nat>>, u: nat, v: nat)
    requires Reaches(next, u, v) && v < |next| && next[v].Some?
    ensures Reaches(next, u, next[v].value)
  {
    var k: nat :| Follow(next, u, k) == Some(v);
    Follows(next, u, k + 1, next[v].value);
  }

  lemma InheritedAtLeastBase(base: seq<nat>, next: seq<Option<nat>>, t: nat)
    requires t < |base|
    ensures base[t] <= Inherited(base, next, t)
  {
    ReachesSelf(next, t);
    MaxReachingBound(base, next, t, |base|, t);
  }

  lemma InheritedAlongEdge(base: seq<nat>, next: seq<Option<nat>>, v: nat)
    requires IsGraph(base, next) && v < |base| && next[v].Some?
    ensures Inherited(base, next, v) <= Inherited(base, next, next[v].value)
  {
    var u := InheritedAttained(base, next, v);
    ReachesOnward(next, u, v);
    MaxReachingBound(base, next, next[v].value, |base|, u);
  }

  /** The inherited priorities satisfy both closure conditions... */
  lemma InheritedClosed(base: seq<nat>, next: seq<Option<nat>>)
    requires IsGraph(base, next)
    ensures Closed(base, next, InheritedAll(base, next))
  {
    var all := InheritedAll(base, next);
    forall t | 0 <= t < |base| ensures base[t] <= all[t] {
      InheritedAtLeastBase(base, next, t);
    }
    forall v | 0 <= v < |base| && next[v].Some? ensures all[v] <= all[next[v].value] {
      InheritedAlongEdge(base, next, v);
    }
  }

  lemma {:induction false} ClosedAlongPath(base: seq<nat>, next: seq<Option<nat>>, eff: seq<nat>,
                                           u: nat, k: nat, t: nat)
    requires IsGraph(base, next) && |eff| == |base| && Closed(base, next, eff)
    requires u < |base| && Follow(next, u, k) == Some(t)
    ensures t < |base| && base[u] <= eff[t]
  {
    if k > 0 {
      ClosedAlongPath(base, next, eff, u, k - 1, Follow(next, u, k - 1).value);
    }
  }

  /** ...and they are the least assignment that does. */
  lemma InheritedLeast(base: seq<nat>, next: seq<Option<nat>>, eff: seq<nat>, t: nat)
    requires IsGraph(base, next) && |eff| == |base| && Closed(base, next, eff)
    requires t < |base|
    ensures Inherited(base, next, t) <= eff[t]
  {
    var u := InheritedAttained(base, next, t);
    var k: nat :| Follow(next, u, k) == Some(t);
    ClosedAlongPath(base, next, eff, u, k, t);
  }

  // ----- what the relaxation passes establish -----

  /** Between the base priorities and the bound `top`: no value is too large yet. */
  ghost predicate Sound(base: seq<nat>, eff: seq<nat>, top: seq<nat>)
    requires |eff| == |top| == |base|
  {
    forall t :: 0 <= t < |base| ==> base[t] <= eff[t] <= top[t]
  }

  /** Every chain of at most `k` edges has been accounted for. */
  ghost predicate CoversPaths(base: seq<nat>, next: seq<Option<nat>>, eff: seq<nat>, k: int)
    requires IsGraph(base, next) && |eff| == |base|
  {
    forall u, j: nat :: 0 <= u < |base| && j <= k && Follow(next, u, j).Some? ==>
      Follow(next, u, j).value < |base| && base[u] <= eff[Follow(next, u, j).value]
  }

  /** Raising an owner to its waiter's current value stays below every closed bound. */
  lemma RelaxSound(base: seq<nat>, next: seq<Option<nat>>, eff: seq<nat>, top: seq<nat>, v: nat)
    requires IsGraph(base, next) && |eff| == |top| == |base|
    requires Sound(base, eff, top) && Closed(base, next, top)
    requires v < |base| && next[v].Some? && eff[next[v].value] < eff[v]
    ensures Sound(base, eff[next[v].value := eff[v]], top)
  {
  }

  /** A pass that has relaxed every edge against the values of its start covers one edge more. */
  lemma PassCoversOneMore(base: seq<nat>, next: seq<Option<nat>>, before: seq<nat>, after: seq<nat>, k: nat)
    requires IsGraph(base, next) && |before| == |after| == |base|
    requires CoversPaths(base, next, before, k)
    requires forall t :: 0 <= t < |base| ==> before[t] <= after[t]
    requires forall v :: 0 <= v < |base| && next[v].Some? ==> before[v] <= after[next[v].value]
    ensures CoversPaths(base, next, after, k + 1)
  {
    forall u, j: nat | 0 <= u < |base| && j <= k + 1 && Follow(next, u, j).Some?
      ensures Follow(next, u, j).value < |base| && base[u] <= after[Follow(next, u, j).value]
    {
      if j > 0 {
        var v := Follow(next, u, j - 1).value;
        assert v < |base| && base[u] <= before[v];
      } else {
        assert Follow(next, u, 0).value < |base| && base[u] <= before[Follow(next, u, 0).value];
      }
    }
  }

  /** A pass that changes nothing may stop: the values are already closed. */
  lemma QuietPassIsExact(base: seq<nat>, next: seq<Option<nat>>, eff: seq<nat>)
    requires IsGraph(base, next) && |eff| == |base| && Sound(base, eff, InheritedAll(base, next))
    requires forall v :: 0 <= v < |base| && next[v].Some? ==> eff[v] <= eff[next[v].value]
    ensures eff == InheritedAll(base, next)
  {
    assert Closed(base, next, eff);
    forall t | 0 <= t < |base| ensures eff[t] == Inherited(base, next, t) {
      InheritedLeast(base, next, eff, t);
    }
  }

  // ----- n passes are enough: a chain never needs n or more edges -----

  /** The first `m` tasks on the chain from `u`. */
  ghost function Chain(next: seq<Option<nat>>, u: nat, m: nat): (r: seq<nat>)
    requires forall j :: 0 <= j < m ==> Follow(next, u, j).Some?
    ensures |r| == m && forall j :: 0 <= j < m ==> r[j] == Follow(next, u, j).value
  {
    seq(m, j requires 0 <= j < m => Follow(next, u, j).value)
  }

  lemma {:induction false} FollowPrefix(next: seq<Option<nat>>, u: nat, k: nat, j: nat)
    requires j <= k && Follow(next, u, k).Some?
    ensures Follow(next, u, j).Some?
  {
    if j < k {
      FollowPrefix(next, u, k - 1, j);
    }
  }

  lemma {:induction false} FollowInRange(base: seq<nat>, next: seq<Option<nat>>, u: nat, k: nat)
    requires IsGraph(base, next) && u < |base| && Follow(next, u, k).Some?
    ensures Follow(next, u, k).value < |base|
  {
    if k > 0 {
      FollowInRange(base, next, u, k - 1);
    }
  }

  /** Two chains that meet stay together. */
  lemma {:induction false} FollowShift(next: seq<Option<nat>>, u: nat, i: nat, j: nat, d: nat)
    requires Follow(next, u, i) == Follow(next, u, j)
    ensures Follow(next, u, i + d) == Follow(next, u, j + d)
  {
    if d > 0 {
      FollowShift(next, u, i, j, d - 1);
      assert i + d - 1 == i + (d - 1) && j + d - 1 == j + (d - 1);
    }
  }

  /** Any task reached at all is reached by fewer edges than there are tasks, cycles included. */
  lemma {:induction false} ShortChain(base: seq<nat>, next: seq<Option<nat>>, u: nat, k: nat) returns (j: nat)
    requires IsGraph(base, next) && u < |base| && Follow(next, u, k).Some?
    ensures j < |base| && Follow(next, u, j) == Follow(next, u, k)
    decreases k
  {
    if k < |base| {
      j := k;
    } else {
      forall i: nat | i < k + 1 ensures Follow(next, u, i).Some? && Follow(next, u, i).value < |base| {
        FollowPrefix(next, u, k, i);
        FollowInRange(base, next, u, i);
      }
      var a, b := Pigeonhole(Chain(next, u, k + 1), |base|);
      FollowShift(next, u, a, b, k - b);
      j := ShortChain(base, next, u, a + (k - b));
    }
  }

  /** After n passes every chain is covered, so the values are the inherited ones. */
  lemma AllPassesExact(base: seq<nat>, next: seq<Option<nat>>, eff: seq<nat>)
    requires IsGraph(base, next) && |eff| == |base|
    requires Sound(base, eff, InheritedAll(base, next)) && CoversPaths(base, next, eff, |base|)
    ensures eff == InheritedAll(base, next)
  {
    forall t | 0 <= t < |base| ensures eff[t] == Inherited(base, next, t) {
      var u := InheritedAttained(base, next, t);
      var k: nat :| Follow(next, u, k) == Some(t);
      var j := ShortChain(base, next, u, k);
    }
  }

  // ----- handing a mutex over -----

  /** `before` is a graph in which `l` waits for nobody; `after` is what is left of it when `l`
      hands one mutex to its waiter `w`, which no other waiter of that mutex exceeds in `eff`:
      every edge into `l` through that mutex now leads to `w`. */
  ghost predicate HandOver(base: seq<nat>, before: seq<Option<nat>>, after: seq<Option<nat>>, eff: seq<nat>,
                           l: nat, w: nat) {
    && IsGraph(base, before) && IsGraph(base, after) && |eff| == |base|
    && l < |base| && w < |base| && l != w
    && before[l] == None && after[l] == None
    && before[w] == Some(l) && after[w] == None
    && forall x :: 0 <= x < |base| && x != w ==>
         || after[x] == before[x]
         || (before[x] == Some(l) && after[x] == Some(w) && eff[x] <= eff[w])
  }

  lemma HandOverStillClosed(base: seq<nat>, before: seq<Option<nat>>, after: seq<Option<nat>>,
                            eff: seq<nat>, l: nat, w: nat)
    requires HandOver(base, before, after, eff, l, w) && Closed(base, before, eff)
    ensures Closed(base, after, eff)
  {
  }

  lemma HandOverWasClosed(base: seq<nat>, before: seq<Option<nat>>, after: seq<Option<nat>>,
                          eff: seq<nat>, l: nat, w: nat, eff': seq<nat>)
    requires HandOver(base, before, after, eff, l, w)
    requires |eff'| == |base| && Closed(base, after, eff')
    ensures Closed(base, before, eff'[l := if eff'[l] >= eff'[w] then eff'[l] else eff'[w]])
  {
  }

  /** Handing a mutex to its highest waiter changes nobody's inherited priority except the
      previous owner's, and that one does not fall below both itself and the new owner. */
  lemma HandOverPriorities(base: seq<nat>, before: seq<Option<nat>>, after: seq<Option<nat>>,
                           eff: seq<nat>, eff': seq<nat>, l: nat, w: nat)
    requires HandOver(base, before, after, eff, l, w)
    requires eff == InheritedAll(base, before) && eff' == InheritedAll(base, after)
    ensures forall t :: 0 <= t < |base| && t != l ==> eff'[t] == eff[t]
    ensures eff'[l] <= eff[l]
    ensures eff[l] <= eff'[l] || eff[l] <= eff'[w]
  {
    InheritedClosed(base, before);
    InheritedClosed(base, after);
    HandOverStillClosed(base, before, after, eff, l, w);
    HandOverWasClosed(base, before, after, eff, l, w, eff');
    var joined := eff'[l := if eff'[l] >= eff'[w] then eff'[l] else eff'[w]];
    LeastEverywhere(base, after, eff);
    LeastEverywhere(base, before, joined);
  }

  lemma LeastEverywhere(base: seq<nat>, next: seq<Option<nat>>, eff: seq<nat>)
    requires IsGraph(base, next) && |eff| == |base| && Closed(base, next, eff)
    ensures forall t :: 0 <= t < |base| ==> InheritedAll(base, next)[t] <= eff[t]
  {
    forall t | 0 <= t < |base| ensures InheritedAll(base, next)[t] <= eff[t] {
      InheritedLeast(base, next, eff, t);
    }
  }
}
