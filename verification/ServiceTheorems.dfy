/** What the service promises, for every run: any number of calls, any interleaving, any outcome of what the
    model does not see. A run is a sequence of steps that can be taken from a new service. */
module ServiceTheorems {
  import opened Basics
  import opened ServiceProtocol
  import opened ServiceInvariants

  ghost predicate Quiescent(s: Sys) { s.threads == map[] }

  lemma InvAfterRun(steps: seq<Step>)
    requires Runnable(NEW_SERVICE, steps)
    ensures Inv(After(NEW_SERVICE, steps))
  {
    InvOfNew();
    InvAlong(NEW_SERVICE, steps);
  }

  // ---- subscriptions ----

  /** A live subscription whose instance has left the slot is always about to end: some call has committed its
      Stop or Destroy CAS and still owes an unsubscribe, or is cancelling this very subscription. At most one
      subscription is live at any time. Once no call is in flight, it belongs to the running instance, which
      nobody has closed. */
  ghost predicate HooksSafe(s: Sys) {
    && (forall i: Inst :: i in s.w.live && s.w.running != Some(i) ==> SomeOwes(s) || BeingCancelled(s, i))
    && (forall i: Inst, j: Inst :: i in s.w.live && j in s.w.live ==> i == j)
    && (Quiescent(s) ==> forall i: Inst :: i in s.w.live ==>
          s.w.running == Some(i) && s.w.state == Running && i !in s.w.closes && i !in s.w.lost)
  }

  /** At most one subscription is live. */
  lemma OneLives(s: Sys)
    requires InvLocks(s) && InvShape(s)
    ensures forall i: Inst, j: Inst :: i in s.w.live && j in s.w.live ==> i == j
  {
    if s.w.hooksMu.Some? {
      assert HasHooksMu(s, s.w.hooksMu.value);
    }
  }

  lemma LiveAtRest(s: Sys, i: Inst)
    requires InvStarting(s) && InvInstances(s) && InvSlot(s) && InvHooks(s) && InvLocks(s)
    requires Quiescent(s) && i in s.w.live
    ensures s.w.running == Some(i) && s.w.state == Running && i !in s.w.closes && i !in s.w.lost
  {
    assert !SomeOwes(s) && !SomePending(s) && !BeingCancelled(s, i) && !JustStored(s);
  }

  lemma HooksAreSafe(s: Sys)
    requires Inv(s)
    ensures HooksSafe(s)
  {
    OneLives(s);
    forall i: Inst | Quiescent(s) && i in s.w.live
      ensures s.w.running == Some(i) && s.w.state == Running && i !in s.w.closes && i !in s.w.lost
    {
      LiveAtRest(s, i);
    }
    hide InvLocks, InvStarting, InvSeq, InvInstances, InvSlot, InvShape, SomeOwes, BeingCancelled;
  }

  lemma HookSafety(steps: seq<Step>)
    requires Runnable(NEW_SERVICE, steps)
    ensures HooksSafe(After(NEW_SERVICE, steps))
  {
    InvAfterRun(steps);
    HooksAreSafe(After(NEW_SERVICE, steps));
  }

  // ---- instances ----

  /** Instance i is in one place and no other. */
  ghost predicate InOnePlace(s: Sys, i: Inst) {
    var slot := s.w.running == Some(i);
    var held := SomeHolds(s, i);
    var closed := s.w.closes[i] == 1;
    var lost := i in s.w.lost;
    && (slot || held || closed || lost)
    && !(slot && (held || closed || lost)) && !(held && (closed || lost)) && !(closed && lost)
  }

  /** Every instance is in the slot, in the hands of the one call that will store or close it, closed exactly once, or
      overwritten by a later start's Store; never in two of these. */
  ghost predicate EachInOnePlace(s: Sys) {
    && (forall i: Inst :: i < s.w.made ==> InOnePlace(s, i))
    && (forall i: Inst :: s.w.closes[i] <= 1)
    && (forall t: Tid, u: Tid, i: Inst :: HoldsInst(s, t, i) && HoldsInst(s, u, i) ==> t == u)
  }

  /** At rest a filled slot means Running, so a destroyed service at rest holds no instance. */
  ghost predicate RestsClean(s: Sys) {
    && (Quiescent(s) && s.w.running.Some? ==> s.w.state == Running)
    && (Quiescent(s) && s.w.state == Destroyed ==>
          s.w.running == None && forall i: Inst :: i < s.w.made ==> s.w.closes[i] == 1 || i in s.w.lost)
  }

  lemma InstancesInOnePlace(s: Sys)
    requires InvInstances(s)
    ensures EachInOnePlace(s)
  {
    forall i: Inst | i < s.w.made ensures InOnePlace(s, i) {
      if SomeHolds(s, i) {
        var t: Tid :| HoldsInst(s, t, i);
      }
    }
  }

  lemma InstancesConserved(s: Sys)
    requires Inv(s)
    ensures EachInOnePlace(s) && RestsClean(s)
  {
    InstancesInOnePlace(s);
    if s.w.startMu.Some? {
      assert HasStartMu(s, s.w.startMu.value);
    }
    forall i: Inst | Quiescent(s) && i < s.w.made ensures !SomeHolds(s, i) && InOnePlace(s, i) {}
  }

  /** Conservation, over every run. */
  lemma InstanceConservation(steps: seq<Step>)
    requires Runnable(NEW_SERVICE, steps)
    ensures EachInOnePlace(After(NEW_SERVICE, steps)) && RestsClean(After(NEW_SERVICE, steps))
  {
    InvAfterRun(steps);
    InstancesConserved(After(NEW_SERVICE, steps));
  }

  /** The Store at the end of a start overwrites an instance exactly when the slot is filled, and then another
      call sits between its Stop or Destroy CAS and its swap. No other step loses an instance. */
  ghost predicate LosesOnlyToPending(s: Sys, a: Step)
    requires Enabled(s, a)
  {
    var stores := a.Move? && s.threads[a.t].StoreSlot?;
    && (Do(s, a).w.lost != s.w.lost <==> stores && s.w.running.Some?)
    && (stores && s.w.running.Some? ==>
          s.w.running.value in Do(s, a).w.lost && exists u: Tid :: u != a.t && IsPending(s, u))
  }

  lemma LosingNeedsPending(s: Sys, a: Step)
    requires Inv(s) && Enabled(s, a)
    ensures LosesOnlyToPending(s, a)
  {
    if a.Move? {
      OrderlyOf(s.w, a.t, s.threads[a.t], a.ok);
      assert HasStartMu(s, a.t) == HoldsStart(s.threads[a.t]);
      if s.threads[a.t].StoreSlot? && s.w.running.Some? {
        assert s.w.state != Running;
        var u: Tid :| IsPending(s, u);
        assert u != a.t;
      }
    }
  }

  lemma OverwriteNeedsPendingSwap(steps: seq<Step>, a: Step)
    requires Runnable(NEW_SERVICE, steps) && Enabled(After(NEW_SERVICE, steps), a)
    ensures LosesOnlyToPending(After(NEW_SERVICE, steps), a)
  {
    InvAfterRun(steps);
    LosingNeedsPending(After(NEW_SERVICE, steps), a);
  }

  // ---- the life cycle ----

  /** The edges of the life cycle. */
  predicate LegalEdge(before: State, after: State) {
    || after == before
    || (before == Created && after == Initialized)
    || (before == Initialized && after == Starting)
    || (before == Starting && after == Running)
    || (before in {Starting, Running} && after == Initialized)
    || (before != Destroyed && after == Destroyed)
  }

  /** While the state is Starting exactly one call stands between its CAS into Starting and its CAS out of it: the
      holder of startMu, and it is the call that made the state Starting. So its rollback, and its CAS to Running,
      never act on another call's start. */
  lemma StartingHasOneOwner(steps: seq<Step>)
    requires Runnable(NEW_SERVICE, steps)
    ensures var s := After(NEW_SERVICE, steps);
            && (s.w.state == Starting ==>
                  exists t: Tid :: t in s.threads && InWindow(s.threads[t]) && s.w.startMu == Some(t))
            && (forall t: Tid, u: Tid :: t in s.threads && u in s.threads && InWindow(s.threads[t])
                  && InWindow(s.threads[u])
                  ==> t == u)
            && (forall t: Tid :: t in s.threads && InWindow(s.threads[t]) && s.w.state == Starting ==>
                  s.threads[t].my == s.w.starter)
            && (Quiescent(s) ==> s.w.state != Starting)
  {
    InvAfterRun(steps);
    var s := After(NEW_SERVICE, steps);
    forall t: Tid | t in s.threads && InWindow(s.threads[t]) ensures s.w.startMu == Some(t) {
      assert HasStartMu(s, t);
    }
  }

  lemma EdgesOf(w: Words, t: Tid, pc: Pc, ok: bool)
    requires SeenOk(pc)
    ensures LegalEdge(w.state, Act(w, t, pc, ok).w.state)
  {
    if InLaunch(pc) { assert LegalEdge(w.state, StepLaunch(w, pc, ok).w.state); }
    else if InHooks(pc) { assert StepHooks(w, t, pc, ok).w.state == w.state; }
    else if InStop(pc) { assert LegalEdge(w.state, StepStop(w, pc).w.state); }
    else if InTail(pc) { assert StepTail(w, t, pc).w.state == w.state; }
    else { assert LegalEdge(w.state, StepStart(w, t, pc, ok).w.state); }
  }

  /** Every step of every run follows an edge of the life cycle. */
  lemma LegalEdges(steps: seq<Step>, a: Step)
    requires Runnable(NEW_SERVICE, steps) && Enabled(After(NEW_SERVICE, steps), a)
    ensures LegalEdge(After(NEW_SERVICE, steps).w.state, Do(After(NEW_SERVICE, steps), a).w.state)
  {
    InvAfterRun(steps);
    var s := After(NEW_SERVICE, steps);
    if a.Move? {
      EdgesOf(s.w, a.t, s.threads[a.t], a.ok);
    }
  }

  lemma {:induction false} RunThenStep(s: Sys, steps: seq<Step>, a: Step)
    requires Runnable(s, steps) && Enabled(After(s, steps), a)
    ensures Runnable(s, steps + [a]) && After(s, steps + [a]) == Do(After(s, steps), a)
    decreases |steps|
  {
    if steps == [] {
      assert steps + [a] == [a];
      assert Runnable(Do(s, a), [a][1..]);
    } else {
      RunThenStep(Do(s, steps[0]), steps[1..], a);
      assert (steps + [a])[1..] == steps[1..] + [a];
    }
  }

  lemma {:induction false} RunThenRun(s: Sys, one: seq<Step>, two: seq<Step>)
    requires Runnable(s, one) && Runnable(After(s, one), two)
    ensures Runnable(s, one + two) && After(s, one + two) == After(After(s, one), two)
    decreases |one|
  {
    if one == [] {
      assert one + two == two;
    } else {
      RunThenRun(Do(s, one[0]), one[1..], two);
      assert (one + two)[1..] == one[1..] + two;
    }
  }

  /** Destroyed is absorbing: whatever calls are in flight or made later, the state stays Destroyed. */
  lemma {:induction false} DestroyedAbsorbs(steps: seq<Step>, more: seq<Step>)
    requires Runnable(NEW_SERVICE, steps) && After(NEW_SERVICE, steps).w.state == Destroyed
    requires Runnable(After(NEW_SERVICE, steps), more)
    ensures After(After(NEW_SERVICE, steps), more).w.state == Destroyed
    decreases |more|
  {
    if more != [] {
      LegalEdges(steps, more[0]);
      RunThenStep(NEW_SERVICE, steps, more[0]);
      DestroyedAbsorbs(steps + [more[0]], more[1..]);
    }
  }

  // ---- newest start wins ----

  /** The sequence numbers that get past the coalescing check strictly increase; a call coalesced away always has
      a strictly newer one; every number issued is waiting, attempted or coalesced; and once no call is in flight
      the last attempt is the newest number ever issued. */
  lemma NewestStartWins(steps: seq<Step>)
    requires Runnable(NEW_SERVICE, steps)
    ensures var s := After(NEW_SERVICE, steps);
            && Increasing(s.w.attempts)
            && (forall q :: q in s.w.coalesced ==> 1 <= q < s.w.startSeq)
            && (forall q: nat :: 1 <= q <= s.w.startSeq ==> q in s.w.attempts || q in s.w.coalesced || SomeWaits(s, q))
            && (Quiescent(s) && s.w.startSeq > 0 ==>
                  s.w.attempts != [] && s.w.attempts[|s.w.attempts| - 1] == s.w.startSeq)
  {
    InvAfterRun(steps);
    var s := After(NEW_SERVICE, steps);
    if Quiescent(s) && s.w.startSeq > 0 {
      assert !SomeWaits(s, s.w.startSeq);
      assert s.w.startSeq in s.w.attempts;
      var last := s.w.attempts[|s.w.attempts| - 1];
      assert last in s.w.attempts;
    }
  }

  // ---- when Running means a running instance ----

  /** No step of the run is a start that enters Starting while a committed Stop or Destroy has yet to swap. */
  ghost predicate OrderlyRun(s: Sys, steps: seq<Step>)
    requires Runnable(s, steps)
    decreases |steps|
  {
    steps == [] || (Orderly(s, steps[0]) && OrderlyRun(Do(s, steps[0]), steps[1..]))
  }

  lemma {:induction false} OrderlyAlong(s: Sys, steps: seq<Step>)
    requires Runnable(s, steps) && OrderlyRun(s, steps) && Inv(s) && InvOrderly(s)
    ensures InvOrderly(After(s, steps))
    decreases |steps|
  {
    if steps != [] {
      InvKept(s, steps[0]);
      OrderlyKept(s, steps[0]);
      OrderlyAlong(Do(s, steps[0]), steps[1..]);
    }
  }

  /** In an orderly run Running always means an instance in the slot, no instance is ever lost, and at rest every
      instance ever started is the running one or has been closed exactly once. */
  lemma OrderlyRunsLoseNothing(steps: seq<Step>)
    requires Runnable(NEW_SERVICE, steps) && OrderlyRun(NEW_SERVICE, steps)
    ensures var s := After(NEW_SERVICE, steps);
            && (s.w.state == Running ==> s.w.running.Some?)
            && s.w.lost == {}
            && (Quiescent(s) ==> (s.w.running.Some? <==> s.w.state == Running))
            && (Quiescent(s) ==> forall i: Inst :: i < s.w.made ==> s.w.running == Some(i) || s.w.closes[i] == 1)
  {
    InvOfNew();
    OrderlyAlong(NEW_SERVICE, steps);
    InstanceConservation(steps);
    var s := After(NEW_SERVICE, steps);
    forall i: Inst | Quiescent(s) && i < s.w.made ensures s.w.running == Some(i) || s.w.closes[i] == 1 {
      assert InOnePlace(s, i);
    }
  }

  /** Running with an empty slot: a query finds no instance although the state says there is one. */
  predicate EmptyRunning(s: Sys) { s.w.state == Running && s.w.running == None }

  /** Exactly two operations leave Running with an empty slot behind: the swap of a Stop or Destroy whose CAS was
      followed by a whole new start, and the CAS to Running of a start whose instance such a swap has taken. */
  lemma EmptyRunningExactly(steps: seq<Step>, a: Step)
    requires Runnable(NEW_SERVICE, steps) && Enabled(After(NEW_SERVICE, steps), a)
    requires !EmptyRunning(After(NEW_SERVICE, steps))
    ensures var s := After(NEW_SERVICE, steps);
            EmptyRunning(Do(s, a)) <==>
              a.Move? && ((s.threads[a.t].Detach? && s.w.state == Running)
                          || (s.threads[a.t].CasRunning? && s.w.state == Starting && s.w.running == None))
  {
    InvAfterRun(steps);
    var s := After(NEW_SERVICE, steps);
    if a.Move? {
      OrderlyOf(s.w, a.t, s.threads[a.t], a.ok);
      if s.threads[a.t].Detach? { assert StepTail(s.w, a.t, s.threads[a.t]).w.running == None; }
    }
  }

  /** The machine can get from s to n. */
  ghost predicate Reaches(s: Sys, n: Sys) {
    exists steps :: Runnable(s, steps) && After(s, steps) == n
  }

  lemma ReachesItself(s: Sys)
    ensures Reaches(s, s)
  {
    assert Runnable(s, []) && After(s, []) == s;
  }

  lemma ThenStep(s: Sys, m: Sys, a: Step) returns (n: Sys)
    requires Reaches(s, m) && Enabled(m, a)
    ensures n == Do(m, a) && Reaches(s, n)
  {
    n := Do(m, a);
    var steps :| Runnable(s, steps) && After(s, steps) == m;
    RunThenStep(s, steps, a);
  }

  lemma ReachesTransitively(s: Sys, m: Sys, n: Sys)
    requires Reaches(s, m) && Reaches(m, n)
    ensures Reaches(s, n)
  {
    var one :| Runnable(s, one) && After(s, one) == m;
    var two :| Runnable(m, two) && After(m, two) == n;
    RunThenRun(s, one, two);
  }

  /** The newest start, having its number, takes the lock and passes the coalescing check. */
  lemma PassLock(s: Sys, t: Tid, q: nat)
    requires t in s.threads && s.threads[t] == StartLock(q) && s.w.startMu == None && s.w.startSeq == q
    ensures Reaches(s, Sys(s.w.(startMu := Some(t), attempts := s.w.attempts + [q]),
                           s.threads[t := StopLoad(ByStart(q))]))
  {
    ReachesItself(s);
    var m := ThenStep(s, s, Move(t, true));
    m := ThenStep(s, m, Move(t, true));
    assert m.threads == s.threads[t := StopLoad(ByStart(q))];
  }

  /** A start that nobody interrupts gets its number. */
  lemma NumberAlone(s: Sys, t: Tid)
    requires t !in s.threads
    ensures var q := s.w.startSeq + 1; Reaches(s, Sys(s.w.(startSeq := q), s.threads[t := StartLock(q)]))
  {
    ReachesItself(s);
    var m := ThenStep(s, s, Call(t, StartSeq));
    m := ThenStep(s, m, Move(t, true));
    assert m.threads == s.threads[t := StartLock(s.w.startSeq + 1)];
  }

  /** Its own Stop finds nothing to stop, and it enters Starting. */
  lemma EnterAlone(s: Sys, t: Tid, q: nat)
    requires t in s.threads && s.threads[t] == StopLoad(ByStart(q)) && s.w.state == Initialized
    ensures Reaches(s, Sys(s.w.(state := Starting, starter := q), s.threads[t := Launch(q)]))
  {
    ReachesItself(s);
    var m := ThenStep(s, s, Move(t, true));
    m := ThenStep(s, m, Move(t, true));
    assert m.threads == s.threads[t := Launch(q)];
  }

  lemma PromoteAlone(s: Sys, t: Tid, q: nat, i: Inst)
    requires t in s.threads && s.threads[t] == StoreSlot(q, i) && s.w.state == Starting
    ensures Reaches(s, Sys(s.w.(state := Running, running := Some(i), lost := s.w.lost + Subs(s.w.running)),
                           s.threads[t := ClashLookup(q, i)]))
  {
    ReachesItself(s);
    var m := ThenStep(s, s, Move(t, true));
    m := ThenStep(s, m, Move(t, true));
    assert m.threads == s.threads[t := ClashLookup(q, i)];
  }

  lemma ReturnAlone(s: Sys, t: Tid, q: nat, i: Inst)
    requires t in s.threads && s.threads[t] == ClashLookup(q, i)
    ensures Reaches(s, Sys(s.w.(startMu := None), s.threads - {t}))
  {
    ReachesItself(s);
    var m := ThenStep(s, s, Move(t, false));
    m := ThenStep(s, m, Move(t, true));
    assert m.threads == s.threads - {t};
  }

  /** With its instance made and the Clash API disabled, it stores the instance, reaches Running and returns. */
  lemma StoreAlone(s: Sys, t: Tid, q: nat, i: Inst)
    requires t in s.threads && s.threads[t] == StoreSlot(q, i) && s.w.state == Starting
    ensures Reaches(s, Sys(s.w.(state := Running, running := Some(i), startMu := None,
                                lost := s.w.lost + Subs(s.w.running)),
                           s.threads - {t}))
  {
    PromoteAlone(s, t, q, i);
    var m := Sys(s.w.(state := Running, running := Some(i), lost := s.w.lost + Subs(s.w.running)),
                 s.threads[t := ClashLookup(q, i)]);
    ReturnAlone(m, t, q, i);
    assert m.threads - {t} == s.threads - {t};
    ReachesTransitively(s, m, Sys(m.w.(startMu := None), m.threads - {t}));
  }

  lemma LaunchAlone(s: Sys, t: Tid)
    requires t in s.threads && s.threads[t].Launch? && s.w.state == Starting
    ensures Reaches(s, Sys(s.w.(state := Running, running := Some(s.w.made), startMu := None, made := s.w.made + 1,
                                lost := s.w.lost + Subs(s.w.running)),
                           s.threads - {t}))
  {
    ReachesItself(s);
    var m := ThenStep(s, s, Move(t, true));
    StoreAlone(m, t, s.threads[t].my, s.w.made);
    var n := Sys(s.w.(state := Running, running := Some(s.w.made), startMu := None, made := s.w.made + 1,
                      lost := s.w.lost + Subs(s.w.running)), s.threads - {t});
    assert m.threads - {t} == s.threads - {t};
    ReachesTransitively(s, m, n);
  }

  /** From its number on, nobody in its way, it leaves the service Running with its own instance in the slot, and
      loses whatever instance the slot still held. */
  lemma GoAlone(s: Sys, t: Tid, q: nat)
    requires t in s.threads && s.threads[t] == StartLock(q) && s.w.startMu == None && s.w.startSeq == q
    requires s.w.state == Initialized
    ensures Reaches(s, Sys(s.w.(state := Running, running := Some(s.w.made), made := s.w.made + 1,
                                lost := s.w.lost + Subs(s.w.running), attempts := s.w.attempts + [q], starter := q),
                           s.threads - {t}))
  {
    PassLock(s, t, q);
    var l := Sys(s.w.(startMu := Some(t), attempts := s.w.attempts + [q]), s.threads[t := StopLoad(ByStart(q))]);
    EnterAlone(l, t, q);
    var m := Sys(l.w.(state := Starting, starter := q), l.threads[t := Launch(q)]);
    ReachesTransitively(s, l, m);
    LaunchAlone(m, t);
    assert m.threads - {t} == s.threads - {t};
    var n := Sys(s.w.(state := Running, running := Some(s.w.made), made := s.w.made + 1,
                      lost := s.w.lost + Subs(s.w.running), attempts := s.w.attempts + [q], starter := q),
                        s.threads - {t});
    ReachesTransitively(s, m, n);
  }

  lemma StartAlone(s: Sys, t: Tid)
    requires t !in s.threads && s.w.startMu == None && s.w.state == Initialized
    ensures var q := s.w.startSeq + 1;
            Reaches(s, Sys(s.w.(state := Running, running := Some(s.w.made), startSeq := q, made := s.w.made + 1,
                                lost := s.w.lost + Subs(s.w.running), attempts := s.w.attempts + [q], starter := q),
                           s.threads))
  {
    var q := s.w.startSeq + 1;
    NumberAlone(s, t);
    var l := Sys(s.w.(startSeq := q), s.threads[t := StartLock(q)]);
    GoAlone(l, t, q);
    assert l.threads - {t} == s.threads;
    var n := Sys(s.w.(state := Running, running := Some(s.w.made), startSeq := q, made := s.w.made + 1,
                      lost := s.w.lost + Subs(s.w.running), attempts := s.w.attempts + [q], starter := q), s.threads);
    ReachesTransitively(s, l, n);
  }

  lemma DetachAlone(s: Sys, t: Tid, i: Inst)
    requires t in s.threads && s.threads[t] == Detach(Host) && s.w.hooksMu == None && s.w.running == Some(i)
    ensures Reaches(s, Sys(s.w.(running := None, hooksMu := Some(t)), s.threads[t := UnsubSwap(Host, Some(i))]))
  {
    ReachesItself(s);
    var m := ThenStep(s, s, Move(t, true));
    m := ThenStep(s, m, Move(t, true));
    assert m.threads == s.threads[t := UnsubSwap(Host, Some(i))];
  }

  lemma CancelAlone(s: Sys, t: Tid, i: Inst)
    requires t in s.threads && s.threads[t] == UnsubSwap(Host, Some(i)) && s.w.subCancel == None
    ensures Reaches(s, Sys(s.w, s.threads[t := UnsubUnlock(Host, Some(i))]))
  {
    ReachesItself(s);
    var m := ThenStep(s, s, Move(t, true));
    m := ThenStep(s, m, Move(t, true));
    assert m.threads == s.threads[t := UnsubUnlock(Host, Some(i))];
  }

  lemma CloseAlone(s: Sys, t: Tid, i: Inst)
    requires t in s.threads && s.threads[t] == UnsubUnlock(Host, Some(i))
    ensures Reaches(s, Sys(s.w.(hooksMu := None, closes := s.w.closes + multiset{i}), s.threads - {t}))
  {
    ReachesItself(s);
    var m := ThenStep(s, s, Move(t, true));
    m := ThenStep(s, m, Move(t, true));
    assert m.threads == s.threads - {t};
  }

  /** A Stop that has committed its CAS and swaps now, with nobody in its way, closes what it finds. */
  lemma FinishStop(s: Sys, t: Tid, i: Inst)
    requires t in s.threads && s.threads[t] == Detach(Host)
    requires s.w.hooksMu == None && s.w.subCancel == None && s.w.running == Some(i)
    ensures Reaches(s, Sys(s.w.(running := None, closes := s.w.closes + multiset{i}), s.threads - {t}))
  {
    DetachAlone(s, t, i);
    var m := Sys(s.w.(running := None, hooksMu := Some(t)), s.threads[t := UnsubSwap(Host, Some(i))]);
    CancelAlone(m, t, i);
    var n := Sys(m.w, m.threads[t := UnsubUnlock(Host, Some(i))]);
    ReachesTransitively(s, m, n);
    CloseAlone(n, t, i);
    assert n.threads - {t} == s.threads - {t};
    ReachesTransitively(s, n, Sys(s.w.(running := None, closes := s.w.closes + multiset{i}), s.threads - {t}));
  }

  /** A Stop on a running service commits its CAS, and stalls. */
  lemma BeginStop(s: Sys, t: Tid)
    requires t !in s.threads && s.w.state == Running
    ensures Reaches(s, Sys(s.w.(state := Initialized), s.threads[t := Detach(Host)]))
  {
    ReachesItself(s);
    var m := ThenStep(s, s, Call(t, StopLoad(Host)));
    m := ThenStep(s, m, Move(t, true));
    m := ThenStep(s, m, Move(t, true));
    assert m.threads == s.threads[t := Detach(Host)];
  }

  /** Orderly runs are not all runs, and the condition cannot be dropped. A Stop commits its CAS and stalls; a new
      start overwrites the instance that Stop was to close and reaches Running; the Stop then swaps out the new
      instance and closes that one. At rest the state is Running, the slot is empty, and instance 0 was never
      closed. */
  lemma StalledStopLosesAnInstance() returns (s: Sys)
    ensures Reaches(NEW_SERVICE, s) && Quiescent(s)
    ensures s.w.state == Running && s.w.running == None
    ensures 0 in s.w.lost && s.w.closes[0] == 0 && s.w.closes[1] == 1
  {
    ReachesItself(NEW_SERVICE);
    s := ThenStep(NEW_SERVICE, NEW_SERVICE, InitContext);
    StartAlone(s, 1);
    var m := Sys(s.w.(state := Running, running := Some(0), startSeq := 1, made := 1, lost := {}, attempts := [1],
                      starter := 1), map[]);
    ReachesTransitively(NEW_SERVICE, s, m);
    BeginStop(m, 2);
    s := Sys(m.w.(state := Initialized), map[2 := Detach(Host)]);
    ReachesTransitively(NEW_SERVICE, m, s);
    StartAlone(s, 1);
    m := Sys(s.w.(state := Running, running := Some(1), startSeq := 2, made := 2, lost := {0}, attempts := [1, 2],
                  starter := 2),
             s.threads);
    ReachesTransitively(NEW_SERVICE, s, m);
    FinishStop(m, 2, 1);
    s := Sys(m.w.(running := None, closes := multiset{1}), map[]);
    assert m.threads - {2} == map[];
    ReachesTransitively(NEW_SERVICE, m, s);
  }
}
