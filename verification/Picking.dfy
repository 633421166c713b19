/** Lists made by picking from another list: what a function gives for its elements, in order, where it gives
    something. */
module Picking {
  import opened Basics

  ghost predicate Increasing(at: seq<nat>) { forall i, j :: 0 <= i < j < |at| ==> at[i] < at[j] }

  /** `some` is what `f` gives for the elements of `all` at the positions `at`, which are all where it gives
      something. */
  ghost predicate Picked<T, U>(all: seq<T>, some: seq<U>, f: T -> Option<U>, at: seq<nat>) {
    && Increasing(at) && |at| == |some|
    && (forall k :: 0 <= k < |at| ==> at[k] < |all| && f(all[at[k]]) == Some(some[k]))
    && (forall i: nat :: i < |all| && f(all[i]).Some? ==> i in at)
  }

  /** Every position so much further on. */
  function Shifted(at: seq<nat>, far: nat): (r: seq<nat>)
    ensures |r| == |at| && forall k :: 0 <= k < |at| ==> r[k] == at[k] + far
  {
    seq(|at|, k requires 0 <= k < |at| => at[k] + far)
  }

  lemma ShiftedHas(at: seq<nat>, far: nat, i: nat)
    requires i in at
    ensures i + far in Shifted(at, far)
  {
    var k :| 0 <= k < |at| && at[k] == i;
    assert Shifted(at, far)[k] == i + far;
  }

  /** What is picked from two lists is picked from both joined. */
  lemma PickedJoin<T, U>(one: seq<T>, two: seq<T>, some: seq<U>, more: seq<U>, f: T -> Option<U>, at: seq<nat>,
                         bt: seq<nat>)
    requires Picked(one, some, f, at) && Picked(two, more, f, bt)
    ensures Picked(one + two, some + more, f, at + Shifted(bt, |one|))
  {
    var all, now := one + two, at + Shifted(bt, |one|);
    forall k | 0 <= k < |now| ensures now[k] < |all| && f(all[now[k]]) == Some((some + more)[k]) {
      JoinedAt(one, two, some, more, f, at, bt, k);
    }
    assert Increasing(now);
    forall i: nat | i < |all| && f(all[i]).Some? ensures i in now {
      if i < |one| {
        assert all[i] == one[i] && i in at;
      } else {
        assert all[i] == two[i - |one|] && i - |one| in bt;
        ShiftedHas(bt, |one|, i - |one|);
      }
    }
  }

  lemma JoinedAt<T, U>(one: seq<T>, two: seq<T>, some: seq<U>, more: seq<U>, f: T -> Option<U>, at: seq<nat>,
                       bt: seq<nat>, k: nat)
    requires Picked(one, some, f, at) && Picked(two, more, f, bt) && k < |at| + |bt|
    ensures (at + Shifted(bt, |one|))[k] < |one + two|
    ensures f((one + two)[(at + Shifted(bt, |one|))[k]]) == Some((some + more)[k])
  {
    if k >= |at| {
      var j := k - |at|;
      assert (at + Shifted(bt, |one|))[k] == bt[j] + |one|;
      assert (one + two)[bt[j] + |one|] == two[bt[j]];
    }
  }

  /** The positions in a list with one more element in front. */
  function Behind(first: bool, at: seq<nat>): seq<nat> { (if first then [0] else []) + Shifted(at, 1) }

  lemma PickedCons<T, U>(x: T, all: seq<T>, some: seq<U>, f: T -> Option<U>, at: seq<nat>)
    requires Picked(all, some, f, at)
    ensures Picked([x] + all, (if f(x).Some? then [f(x).value] else []) + some, f, Behind(f(x).Some?, at))
  {
    var first: seq<nat> := if f(x).Some? then [0] else [];
    assert Picked([x], if f(x).Some? then [f(x).value] else [], f, first);
    PickedJoin([x], all, if f(x).Some? then [f(x).value] else [], some, f, first, at);
  }

  /** The positions picked out of positions. */
  function Through(inner: seq<nat>, outer: seq<nat>): (r: seq<nat>)
    requires forall k :: 0 <= k < |inner| ==> inner[k] < |outer|
    ensures |r| == |inner| && forall k :: 0 <= k < |r| ==> r[k] == outer[inner[k]]
  {
    seq(|inner|, k requires 0 <= k < |inner| => outer[inner[k]])
  }

}
