/** InitContext among other calls. It moves Created to Initialized by a CAS before it looks at its options, and puts
    Created back with a plain Store when they are bad. The machine of ServiceProtocol knows the calls that succeed. Here
    are the others, with any operations in between: what they break, and what they do not. */
module Initialization {
  import opened Basics
  import opened ServiceProtocol
  import opened ServiceInvariants
  import opened ServiceTheorems

  /** The machine, and the calls of InitContext that have won their CAS and not returned. */
  datatype Run = Run(s: Sys, inits: set<Tid>)

  const FRESH := Run(NEW_SERVICE, {})

  /** A step of the other calls; or an InitContext wins its CAS, succeeds, or fails. */
  datatype Event = Plain(a: Step) | Entered(t: Tid) | Succeeded(t: Tid) | Failed(t: Tid)

  predicate Can(r: Run, e: Event) {
    match e
    case Plain(a) => !a.InitContext? && Enabled(r.s, a)
    case Entered(t) => t !in r.inits && r.s.w.state == Created
    case Succeeded(t) => t in r.inits
    case Failed(t) => t in r.inits
  }

  function Stored(s: Sys, state: State): Sys { s.(w := s.w.(state := state)) }

  function Next(r: Run, e: Event): Run
    requires Can(r, e)
  {
    match e
    case Plain(a) => Run(Do(r.s, a), r.inits)
    case Entered(t) => Run(Stored(r.s, Initialized), r.inits + {t})
    case Succeeded(t) => Run(r.s, r.inits - {t})
    case Failed(t) => Run(Stored(r.s, Created), r.inits - {t})
  }

  /** Where the events lead from a new service, if they can happen. */
  ghost function Ends(events: seq<Event>): Option<Run>
    decreases |events|
  {
    if events == [] then Some(FRESH)
    else
      var r := Ends(events[..|events| - 1]);
      var e := events[|events| - 1];
      if r.Some? && Can(r.value, e) then Some(Next(r.value, e)) else None
  }

  // ---- what no failure breaks ----

  /** At most one InitContext is past its CAS, and the state is not Created while one is. */
  ghost predicate OneAtATime(r: Run) {
    && (r.s.w.state == Created ==> r.inits == {})
    && (forall t: Tid, u: Tid :: t in r.inits && u in r.inits ==> t == u)
  }

  ghost predicate Survives(s: Sys) { InvLocks(s) && InvStarting(s) && InvSeq(s) && InvInstances(s) && InvShape(s) }

  lemma SurvivesStep(s: Sys, a: Step)
    requires Enabled(s, a) && Survives(s)
    ensures Survives(Do(s, a))
  {
    hide Do, InvLocks, InvStarting, InvSeq, InvInstances, InvShape;
    LocksKept(s, a);
    StartingKept(s, a);
    SeqKept(s, a);
    InstancesKept(s, a);
    ShapeKept(s, a);
  }

  lemma SurvivesPut(s: Sys, state: State)
    requires Survives(s) && state in {Created, Initialized}
    ensures Survives(Stored(s, state))
  {
    var n := Stored(s, state);
    assert forall t: Tid :: HasStartMu(n, t) == HasStartMu(s, t) && HasHooksMu(n, t) == HasHooksMu(s, t);
    assert forall t: Tid, q: nat :: WaitsWith(n, t, q) == WaitsWith(s, t, q);
    assert forall t: Tid, i: Inst :: HoldsInst(n, t, i) == HoldsInst(s, t, i);
    forall q: nat | SomeWaits(s, q) ensures SomeWaits(n, q) {
      var t: Tid :| WaitsWith(s, t, q);
      assert WaitsWith(n, t, q);
    }
    forall i: Inst | SomeHolds(s, i) ensures SomeHolds(n, i) {
      var t: Tid :| HoldsInst(s, t, i);
      assert HoldsInst(n, t, i);
    }
  }

  /** The state a step leaves; nothing but a failing InitContext goes back to Created. */
  lemma StateAfter(r: Run, e: Event)
    requires Can(r, e) && Survives(r.s)
    ensures Next(r, e).s.w.state == Created ==> e.Failed? || (r.s.w.state == Created && !e.Entered?)
    ensures e.Plain? ==> LegalEdge(r.s.w.state, Next(r, e).s.w.state)
  {
    if e.Plain? && e.a.Move? { EdgesOf(r.s.w, e.a.t, r.s.threads[e.a.t], e.a.ok); }
  }

  lemma SurvivesNext(r: Run, e: Event)
    requires Can(r, e) && OneAtATime(r) && Survives(r.s)
    ensures OneAtATime(Next(r, e)) && Survives(Next(r, e).s)
  {
    StateAfter(r, e);
    hide Survives, Do, LegalEdge;
    match e
    case Plain(a) => SurvivesStep(r.s, a);
    case Entered(_) => SurvivesPut(r.s, Initialized);
    case Failed(_) => SurvivesPut(r.s, Created);
    case Succeeded(_) =>
  }

  lemma {:induction false} SurvivesAlong(events: seq<Event>)
    requires Ends(events).Some?
    ensures OneAtATime(Ends(events).value) && Survives(Ends(events).value.s)
    decreases |events|
  {
    if events == [] {
      InvOfNew();
    } else {
      var before := events[..|events| - 1];
      SurvivesAlong(before);
      SurvivesNext(Ends(before).value, events[|events| - 1]);
    }
  }

  /** Whatever fails when, an instance stays in one place, is closed at most once, at most one subscription is live,
      Starting has one owner, and start numbers are attempted in order. */
  lemma FailuresLoseNoTrack(events: seq<Event>)
    requires Ends(events).Some?
    ensures var s := Ends(events).value.s;
            && EachInOnePlace(s)
            && (forall i: Inst, j: Inst :: i in s.w.live && j in s.w.live ==> i == j)
            && (s.w.state == Starting ==>
                  exists t: Tid :: t in s.threads && InWindow(s.threads[t]) && s.w.startMu == Some(t))
            && Increasing(s.w.attempts)
  {
    SurvivesAlong(events);
    var s := Ends(events).value.s;
    InstancesInOnePlace(s);
    OneLives(s);
  }

  // ---- what a failure does ----

  /** A step leaves the life cycle exactly when it is the Store of a failing InitContext, which no other is beside. In
      particular nothing else leaves Destroyed, and that Store always does. */
  lemma EdgesExactly(events: seq<Event>, e: Event)
    requires Ends(events).Some? && Can(Ends(events).value, e)
    ensures var r := Ends(events).value;
            && (!LegalEdge(r.s.w.state, Next(r, e).s.w.state) <==> e.Failed?)
            && (r.s.w.state == Destroyed ==> (Next(r, e).s.w.state != Destroyed <==> e.Failed?))
            && (e.Failed? ==> Next(r, e).s.w.state == Created && Next(r, e).inits == {})
  {
    SurvivesAlong(events);
    StateAfter(Ends(events).value, e);
  }

  /** The failure strands an instance: the service is Running, and no call is about to take what the slot holds. */
  ghost predicate Strands(r: Run, e: Event) {
    e.Failed? && r.s.w.state == Running && r.s.w.running.Some? && !SomePending(r.s)
  }

  /** Nothing else breaks what a filled slot means. */
  lemma SlotBreaksExactly(r: Run, e: Event)
    requires Can(r, e) && Survives(r.s) && InvSlot(r.s)
    ensures InvSlot(Next(r, e).s) <==> !Strands(r, e)
  {
    if e.Plain? {
      SlotKept(r.s, e.a);
    } else {
      var n := Next(r, e).s;
      assert forall t: Tid :: IsPending(n, t) == IsPending(r.s, t);
      assert JustStored(n) == JustStored(r.s);
      if JustStored(r.s) { assert NotYetRunning(r.s.threads[r.s.w.startMu.value]); }
      if SomePending(r.s) {
        var t: Tid :| IsPending(r.s, t);
        assert IsPending(n, t);
      }
    }
  }

  lemma HooksOutlast(r: Run, e: Event)
    requires Can(r, e) && Inv(r.s)
    ensures InvHooks(Next(r, e).s)
  {
    if e.Plain? {
      hide InvLocks, InvStarting, InvSeq, InvInstances, InvSlot, InvShape, InvHooks;
      HooksKept(r.s, e.a);
    } else {
      HooksOfWords(r.s, Next(r, e).s);
    }
  }

  lemma HooksOfWords(s: Sys, n: Sys)
    requires InvHooks(s) && n == Stored(s, n.w.state)
    ensures InvHooks(n)
  {
    hide Installing, Fresh, OwesUnsubscribe, Cancelling;
    if SomeOwes(s) {
      var u: Tid :| IsOwing(s, u);
      assert IsOwing(n, u);
    }
    forall i: Inst | BeingCancelled(s, i) ensures BeingCancelled(n, i) {}
  }

  /** The whole invariant of the service survives a step if and only if the step strands no instance. */
  lemma InvBreaksExactly(r: Run, e: Event)
    requires Can(r, e) && OneAtATime(r) && Inv(r.s)
    ensures Inv(Next(r, e).s) <==> !Strands(r, e)
  {
    hide InvLocks, InvStarting, InvSeq, InvInstances, InvSlot, InvShape, InvHooks, Strands, Next, Can;
    SurvivesNext(r, e);
    SlotBreaksExactly(r, e);
    HooksOutlast(r, e);
  }

  /** No event of the run strands an instance. */
  ghost predicate NoneStrands(events: seq<Event>)
    requires Ends(events).Some?
    decreases |events|
  {
    events == [] ||
    (NoneStrands(events[..|events| - 1]) && !Strands(Ends(events[..|events| - 1]).value, events[|events| - 1]))
  }

  /** The invariant holds after the first k events of the run, whatever k. */
  ghost predicate InvThroughout(events: seq<Event>) {
    forall k :: 0 <= k <= |events| ==> Ends(events[..k]).Some? && Inv(Ends(events[..k]).value.s)
  }

  lemma ThroughoutSplit(events: seq<Event>)
    requires events != [] && Ends(events).Some?
    ensures InvThroughout(events) <==> InvThroughout(events[..|events| - 1]) && Inv(Ends(events).value.s)
  {
    hide Inv, Ends;
    var n := |events| - 1;
    assert events[..n + 1] == events;
    assert forall k :: 0 <= k <= n ==> events[..n][..k] == events[..k];
    if InvThroughout(events[..n]) && Inv(Ends(events).value.s) {
      forall k | 0 <= k <= n + 1 ensures Ends(events[..k]).Some? && Inv(Ends(events[..k]).value.s) {
        if k <= n { assert events[..k] == events[..n][..k]; }
      }
    }
    if InvThroughout(events) {
      forall k | 0 <= k <= n ensures Ends(events[..n][..k]).Some? && Inv(Ends(events[..n][..k]).value.s) {
        assert events[..k] == events[..n][..k];
      }
      assert Ends(events[..n + 1]).Some? && Inv(Ends(events[..n + 1]).value.s);
    }
  }

  /** Exactly the runs in which no failure strands an instance keep all that is proved of the service, calls and
      failures freely interleaved. */
  lemma {:induction false} HoldsThroughoutExactly(events: seq<Event>)
    requires Ends(events).Some?
    ensures NoneStrands(events) <==> InvThroughout(events)
    decreases |events|
  {
    hide Inv, Strands;
    if events == [] {
      InvOfNew();
      assert events[..0] == events;
    } else {
      var n := |events| - 1;
      HoldsThroughoutExactly(events[..n]);
      ThroughoutSplit(events);
      SurvivesAlong(events[..n]);
      if InvThroughout(events[..n]) {
        assert events[..n][..n] == events[..n];
        InvBreaksExactly(Ends(events[..n]).value, events[n]);
      }
    }
  }

  /** In those runs subscriptions are safe, instances are conserved, and an instance is overwritten only beside a call
      that is about to take it. */
  lemma UnstrandedRunsAreSafe(events: seq<Event>)
    requires Ends(events).Some? && NoneStrands(events)
    ensures var s := Ends(events).value.s;
            && HooksSafe(s) && EachInOnePlace(s) && RestsClean(s)
            && forall a :: Enabled(s, a) ==> LosesOnlyToPending(s, a)
  {
    hide HooksSafe, EachInOnePlace, RestsClean, LosesOnlyToPending, Inv, Enabled, NoneStrands;
    var s := Ends(events).value.s;
    HoldsThroughoutExactly(events);
    assert events[..|events|] == events;
    HooksAreSafe(s);
    InstancesConserved(s);
    forall a | Enabled(s, a) ensures LosesOnlyToPending(s, a) { LosingNeedsPending(s, a); }
  }

  // ---- two failures ----

  ghost predicate Reached(r: Run) { exists events :: Ends(events) == Some(r) }

  lemma ReachedNext(r: Run, e: Event)
    requires Reached(r) && Can(r, e)
    ensures Reached(Next(r, e))
  {
    var events :| Ends(events) == Some(r);
    assert (events + [e])[..|events|] == events;
    assert Ends(events + [e]) == Some(Next(r, e));
  }

  lemma ReachedByStep(r: Run, a: Step)
    requires Reached(r) && Enabled(r.s, a) && 1 !in r.inits
    ensures Reached(Run(Do(r.s, a), r.inits))
  {
    if a.InitContext? {
      ReachedNext(r, Entered(1));
      var m := Next(r, Entered(1));
      ReachedNext(m, Succeeded(1));
      assert m.inits - {1} == r.inits;
    } else {
      ReachedNext(r, Plain(a));
    }
  }

  /** A run of the machine can go on beside an InitContext. */
  lemma {:induction false} ReachedBy(r: Run, steps: seq<Step>)
    requires Reached(r) && Runnable(r.s, steps) && 1 !in r.inits
    ensures Reached(Run(After(r.s, steps), r.inits))
    decreases |steps|
  {
    hide Do, Enabled, Reached;
    if steps != [] {
      ReachedByStep(r, steps[0]);
      ReachedBy(Run(Do(r.s, steps[0]), r.inits), steps[1..]);
    }
  }

  lemma ReachedThrough(r: Run, s: Sys) returns (n: Run)
    requires Reached(r) && Reaches(r.s, s) && 1 !in r.inits
    ensures n == Run(s, r.inits) && Reached(n)
  {
    var steps :| Runnable(r.s, steps) && After(r.s, steps) == s;
    ReachedBy(r, steps);
    n := Run(s, r.inits);
  }

  /** An InitContext has won its CAS and has yet to look at its options. */
  lemma InitStarts() returns (r: Run)
    ensures Reached(r) && r == Run(Stored(NEW_SERVICE, Initialized), {0})
  {
    assert Ends([]) == Some(FRESH);
    ReachedNext(FRESH, Entered(0));
    r := Next(FRESH, Entered(0));
  }

  lemma BeginDestroy(s: Sys, t: Tid)
    requires t !in s.threads && s.w.state != Destroyed
    ensures Reaches(s, Sys(s.w.(state := Destroyed), s.threads[t := Detach(Host)]))
  {
    ReachesItself(s);
    var m := ThenStep(s, s, Call(t, DestroyLoad));
    m := ThenStep(s, m, Move(t, true));
    m := ThenStep(s, m, Move(t, true));
    assert m.threads == s.threads[t := Detach(Host)];
  }

  /** A Destroy commits before the options turn out bad: the service is Created again, and can be initialized again. */
  lemma FailureUndoesDestroy() returns (before: Run, after: Run)
    ensures Reached(before) && Can(before, Failed(0)) && after == Next(before, Failed(0))
    ensures before.s.w.state == Destroyed && after.s.w.state == Created && Can(after, Entered(0))
  {
    var r := InitStarts();
    BeginDestroy(r.s, 1);
    before := ReachedThrough(r, Sys(r.s.w.(state := Destroyed), r.s.threads[1 := Detach(Host)]));
    after := Next(before, Failed(0));
  }

  /** A start reaches Running before that: at rest the service is Created, with an instance in the slot that no Stop
      will close. */
  lemma FailureStrandsAnInstance() returns (r: Run)
    ensures Reached(r) && Quiescent(r.s) && r.s.w.state == Created && r.s.w.running == Some(0) && r.s.w.closes[0] == 0
  {
    r := InitStarts();
    StartAlone(r.s, 1);
    r := ReachedThrough(r, Sys(r.s.w.(state := Running, running := Some(0), startSeq := 1, made := 1, lost := {},
                                      attempts := [1],
                                      starter := 1), map[]));
    ReachedNext(r, Failed(0));
    r := Next(r, Failed(0));
  }
}
