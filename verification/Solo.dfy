/** What each call does when it runs alone, on a service that any run has left at rest: the plain meaning of
    StartWithContent, Stop and Destroy. */
module Solo {
  import opened Basics
  import opened ServiceProtocol
  import opened ServiceInvariants
  import opened ServiceTheorems

  /** What the model does not see: does the content translate, does the instance start, is the Clash API on. */
  datatype Fate = Fate(translates: bool, launches: bool, clash: bool)

  function Ok(f: Fate, pc: Pc): bool {
    match pc
    case StartSeq => f.translates
    case Launch(_) => f.launches
    case ClashLookup(_, _) => f.clash
    case _ => true
  }

  /** Call t takes up to n steps, and nobody else takes any. */
  ghost function AloneFor(s: Sys, t: Tid, f: Fate, n: nat): Sys
    decreases n
  {
    if n == 0 || t !in s.threads then s else AloneFor(Do(s, Move(t, Ok(f, s.threads[t]))), t, f, n - 1)
  }

  /** More than any call takes. */
  const ENOUGH: nat := 30

  // ---- one call, without the others ----

  function Runs(o: Outcome, t: Tid, f: Fate, n: nat): Outcome
    decreases n
  {
    if n == 0 || o.next.None? then o else Runs(Act(o.w, t, o.next.value, Ok(f, o.next.value)), t, f, n - 1)
  }

  function Placed(o: Outcome, t: Tid): Sys { Sys(o.w, if o.next.Some? then map[t := o.next.value] else map[]) }

  lemma {:induction false} AloneRuns(o: Outcome, t: Tid, f: Fate, n: nat)
    ensures AloneFor(Placed(o, t), t, f, n) == Placed(Runs(o, t, f, n), t)
    decreases n
  {
    if n > 0 && o.next.Some? {
      var next := Act(o.w, t, o.next.value, Ok(f, o.next.value));
      AloneRuns(next, t, f, n - 1);
      hide Act;
      assert Do(Placed(o, t), Move(t, Ok(f, o.next.value))) == Placed(next, t);
    }
  }

  lemma {:induction false} RunsOn(o: Outcome, t: Tid, f: Fate, m: nat, n: nat)
    ensures Runs(o, t, f, m + n) == Runs(Runs(o, t, f, m), t, f, n)
    decreases m
  {
    hide Act;
    if m > 0 && o.next.Some? { RunsOn(Act(o.w, t, o.next.value, Ok(f, o.next.value)), t, f, m - 1, n); }
  }

  // ---- the parts of a call ----

  /** The words after a stop that found an instance. */
  function Stopped(w: Words, state: State): Words {
    w.(state := state, running := None, subCancel := None, live := w.live - Subs(w.subCancel),
       closes := w.closes + (if w.running.Some? then multiset{w.running.value} else multiset{}))
  }

  lemma Three(w: Words, t: Tid, f: Fate, pc: Pc, one: Outcome, two: Outcome, three: Outcome)
    requires one == Act(w, t, pc, Ok(f, pc)) && one.next.Some?
    requires two == Act(one.w, t, one.next.value, Ok(f, one.next.value))
    requires two.next.Some? && three == Act(two.w, t, two.next.value, Ok(f, two.next.value))
    ensures Runs(Go(w, pc), t, f, 3) == three
  {
    hide Act;
    assert Runs(two, t, f, 1) == Runs(three, t, f, 0);
    assert Runs(one, t, f, 2) == Runs(two, t, f, 1);
  }

  /** It detaches the instance and takes the subscription. */
  lemma TailBegins(w: Words, t: Tid, f: Fate, c: Caller)
    requires w.hooksMu == None
    ensures Runs(Go(w, Detach(c)), t, f, 3) ==
            Go(w.(running := None, hooksMu := Some(t), subCancel := None), UnsubCancel(c, w.running, w.subCancel))
  {
    var one := w.(running := None);
    var two := one.(hooksMu := Some(t));
    assert Act(w, t, Detach(c), true) == Go(one, UnsubLock(c, w.running));
    assert Act(one, t, UnsubLock(c, w.running), true) == Go(two, UnsubSwap(c, w.running));
    Three(w, t, f, Detach(c), Go(one, UnsubLock(c, w.running)), Go(two, UnsubSwap(c, w.running)),
          Go(two.(subCancel := None), UnsubCancel(c, w.running, w.subCancel)));
  }

  /** It ends the subscription and closes the instance. */
  lemma TailEnds(w: Words, t: Tid, f: Fate, c: Caller, prev: Option<Inst>, sub: Option<Inst>)
    ensures Runs(Go(w, UnsubCancel(c, prev, sub)), t, f, 3) ==
            Outcome(w.(live := w.live - Subs(sub), hooksMu := None,
                       closes := w.closes + (if prev.Some? then multiset{prev.value} else multiset{})),
                    if c.ByStart? then Some(StartCas(c.my)) else None)
  {
    var one := w.(live := w.live - Subs(sub));
    var two := one.(hooksMu := None);
    assert Act(w, t, UnsubCancel(c, prev, sub), true) == Go(one, UnsubUnlock(c, prev));
    assert Act(one, t, UnsubUnlock(c, prev), true) == Go(two, CloseOld(c, prev));
    Three(w, t, f, UnsubCancel(c, prev, sub), Go(one, UnsubUnlock(c, prev)), Go(two, CloseOld(c, prev)),
          Act(two, t, CloseOld(c, prev), true));
  }

  lemma TailRuns(w: Words, t: Tid, f: Fate, c: Caller)
    requires w.hooksMu == None
    ensures Runs(Go(w, Detach(c)), t, f, 6) ==
            Outcome(Stopped(w, w.state), if c.ByStart? then Some(StartCas(c.my)) else None)
  {
    hide Act;
    TailBegins(w, t, f, c);
    var m := w.(running := None, hooksMu := Some(t), subCancel := None);
    TailEnds(m, t, f, c, w.running, w.subCancel);
    RunsOn(Go(w, Detach(c)), t, f, 3, 3);
  }

  /** Stop, by a host or a start: a service that is Running is stopped, any other is left as it is. */
  lemma StopRuns(w: Words, t: Tid, f: Fate, c: Caller)
    requires w.hooksMu == None && w.state != Starting
    ensures Runs(Go(w, StopLoad(c)), t, f, if w.state == Running then 8 else 1) ==
            Outcome(if w.state == Running then Stopped(w, Initialized) else w,
                    if c.ByStart? then Some(StartCas(c.my)) else None)
  {
    var next := Act(w, t, StopLoad(c), true);
    if w.state == Running {
      assert next == Go(w, StopCas(c, Running));
      assert Act(w, t, StopCas(c, Running), true) == Go(w.(state := Initialized), Detach(c));
      hide Act;
      assert Runs(Go(w, StopLoad(c)), t, f, 1) == Runs(next, t, f, 0);
      assert Runs(next, t, f, 1) == Runs(Go(w.(state := Initialized), Detach(c)), t, f, 0);
      TailRuns(w.(state := Initialized), t, f, c);
      RunsOn(Go(w, StopLoad(c)), t, f, 1, 1);
      RunsOn(Go(w, StopLoad(c)), t, f, 2, 6);
    } else {
      assert Runs(Go(w, StopLoad(c)), t, f, 1) == Runs(next, t, f, 0);
    }
  }

  lemma DestroyRuns(w: Words, t: Tid, f: Fate)
    requires w.hooksMu == None
    ensures Runs(Go(w, DestroyLoad), t, f, if w.state == Destroyed then 1 else 8) ==
            Outcome(if w.state == Destroyed then w else Stopped(w, Destroyed), None)
  {
    var next := Act(w, t, DestroyLoad, true);
    if w.state != Destroyed {
      assert next == Go(w, DestroyCas(w.state));
      assert Act(w, t, DestroyCas(w.state), true) == Go(w.(state := Destroyed), Detach(Host));
      hide Act;
      assert Runs(Go(w, DestroyLoad), t, f, 1) == Runs(next, t, f, 0);
      assert Runs(next, t, f, 1) == Runs(Go(w.(state := Destroyed), Detach(Host)), t, f, 0);
      TailRuns(w.(state := Destroyed), t, f, Host);
      RunsOn(Go(w, DestroyLoad), t, f, 1, 1);
      RunsOn(Go(w, DestroyLoad), t, f, 2, 6);
    } else {
      assert Runs(Go(w, DestroyLoad), t, f, 1) == Runs(next, t, f, 0);
    }
  }

  /** A start takes its number and passes the coalescing. */
  lemma NumberRuns(w: Words, t: Tid, f: Fate)
    requires w.startMu == None && f.translates
    ensures var q := w.startSeq + 1;
            Runs(Go(w, StartSeq), t, f, 3) ==
            Go(w.(startSeq := q, startMu := Some(t), attempts := w.attempts + [q]), StopLoad(ByStart(q)))
  {
    var q := w.startSeq + 1;
    var one := w.(startSeq := q);
    var two := one.(startMu := Some(t));
    assert Act(w, t, StartSeq, true) == Go(one, StartLock(q));
    assert Act(one, t, StartLock(q), true) == Go(two, StartCheck(q));
    Three(w, t, f, StartSeq, Go(one, StartLock(q)), Go(two, StartCheck(q)),
          Go(two.(attempts := w.attempts + [q]), StopLoad(ByStart(q))));
  }

  /** It launches and promotes its instance. */
  lemma LaunchRuns(w: Words, t: Tid, f: Fate, q: nat)
    requires w.state == Initialized && w.running == None && f.launches
    ensures Runs(Go(w, StartCas(q)), t, f, 4) ==
            Go(w.(state := Running, starter := q, made := w.made + 1, running := Some(w.made)), ClashLookup(q, w.made))
  {
    var one := w.(state := Starting, starter := q);
    var two := one.(made := w.made + 1);
    var three := two.(running := Some(w.made));
    assert three.lost + {} == three.lost;
    assert Act(w, t, StartCas(q), true) == Go(one, Launch(q));
    assert Act(one, t, Launch(q), true) == Go(two, StoreSlot(q, w.made));
    assert Act(two, t, StoreSlot(q, w.made), true) == Go(three, CasRunning(q, w.made));
    Three(w, t, f, StartCas(q), Go(one, Launch(q)), Go(two, StoreSlot(q, w.made)), Go(three, CasRunning(q, w.made)));
    var end := Go(three.(state := Running), ClashLookup(q, w.made));
    assert Act(three, t, CasRunning(q, w.made), true) == end;
    hide Act;
    assert Runs(Go(three, CasRunning(q, w.made)), t, f, 1) == Runs(end, t, f, 0);
    RunsOn(Go(w, StartCas(q)), t, f, 3, 1);
  }

  lemma Unlocks(w: Words, t: Tid, f: Fate, q: nat)
    ensures Runs(Go(w, StartUnlock(q)), t, f, 1) == Outcome(w.(startMu := None), None)
  {
    var end := Outcome(w.(startMu := None), None);
    assert Act(w, t, StartUnlock(q), true) == end;
    hide Act;
    assert Runs(Go(w, StartUnlock(q)), t, f, 1) == Runs(end, t, f, 0);
  }

  /** It rolls a launch that failed back. */
  lemma FailRuns(w: Words, t: Tid, f: Fate, q: nat)
    requires w.state == Initialized && !f.launches
    ensures Runs(Go(w, StartCas(q)), t, f, 4) == Outcome(w.(starter := q, startMu := None), None)
  {
    var one := w.(state := Starting, starter := q);
    assert Act(w, t, StartCas(q), true) == Go(one, Launch(q));
    assert Act(one, t, Launch(q), false) == Go(one, Rollback(q));
    Three(w, t, f, StartCas(q), Go(one, Launch(q)), Go(one, Rollback(q)), Go(w.(starter := q), StartUnlock(q)));
    Unlocks(w.(starter := q), t, f, q);
    RunsOn(Go(w, StartCas(q)), t, f, 3, 1);
  }

  /** A start on a service that is not Initialized gives up. */
  lemma GivesUp(w: Words, t: Tid, f: Fate, q: nat)
    requires w.state != Initialized
    ensures Runs(Go(w, StartCas(q)), t, f, 2) == Outcome(w.(startMu := None), None)
  {
    assert Act(w, t, StartCas(q), true) == Go(w, StartUnlock(q));
    hide Act;
    assert Runs(Go(w, StartCas(q)), t, f, 1) == Runs(Go(w, StartUnlock(q)), t, f, 0);
    Unlocks(w, t, f, q);
    RunsOn(Go(w, StartCas(q)), t, f, 1, 1);
  }

  /** It subscribes, if the Clash API is on. */
  lemma HooksRun(w: Words, t: Tid, f: Fate, q: nat, i: Inst)
    requires w.running == Some(i) && w.hooksMu == None
    ensures Runs(Go(w, ClashLookup(q, i)), t, f, if f.clash then 9 else 2) ==
            Outcome(if f.clash then w.(startMu := None, subCancel := Some(i), live := w.live - Subs(w.subCancel) + {i})
                    else w.(startMu := None), None)
  {
    if f.clash {
      HooksBegin(w, t, f, q, i);
      var m := w.(hooksMu := Some(t), subCancel := None);
      HooksInstalled(m, t, f, q, i, w.subCancel);
      var n := m.(live := w.live - Subs(w.subCancel), subCancel := Some(i));
      HooksEnd(n, t, f, q, i);
      hide Act;
      RunsOn(Go(w, ClashLookup(q, i)), t, f, 3, 3);
      RunsOn(Go(w, ClashLookup(q, i)), t, f, 6, 3);
    } else {
      assert Act(w, t, ClashLookup(q, i), false) == Go(w, StartUnlock(q));
      hide Act;
      assert Runs(Go(w, ClashLookup(q, i)), t, f, 1) == Runs(Go(w, StartUnlock(q)), t, f, 0);
      Unlocks(w, t, f, q);
      RunsOn(Go(w, ClashLookup(q, i)), t, f, 1, 1);
    }
  }

  lemma HooksBegin(w: Words, t: Tid, f: Fate, q: nat, i: Inst)
    requires w.running == Some(i) && w.hooksMu == None && f.clash
    ensures Runs(Go(w, ClashLookup(q, i)), t, f, 3) ==
            Go(w.(hooksMu := Some(t), subCancel := None), HooksCancel(q, i, w.subCancel))
  {
    var two := w.(hooksMu := Some(t));
    assert Act(w, t, ClashLookup(q, i), true) == Go(w, HooksLock(q, i));
    assert Act(w, t, HooksLock(q, i), true) == Go(two, HooksSwap(q, i));
    Three(w, t, f, ClashLookup(q, i), Go(w, HooksLock(q, i)), Go(two, HooksSwap(q, i)),
          Go(two.(subCancel := None), HooksCancel(q, i, w.subCancel)));
  }

  lemma HooksInstalled(w: Words, t: Tid, f: Fate, q: nat, i: Inst, sub: Option<Inst>)
    requires w.running == Some(i)
    ensures Runs(Go(w, HooksCancel(q, i, sub)), t, f, 3) ==
            Go(w.(live := w.live - Subs(sub), subCancel := Some(i)), HooksSpawn(q, i))
  {
    var one := w.(live := w.live - Subs(sub));
    assert Act(w, t, HooksCancel(q, i, sub), true) == Go(one, HooksCheck(q, i));
    assert Act(one, t, HooksCheck(q, i), true) == Go(one, HooksInstall(q, i));
    Three(w, t, f, HooksCancel(q, i, sub), Go(one, HooksCheck(q, i)), Go(one, HooksInstall(q, i)),
          Go(one.(subCancel := Some(i)), HooksSpawn(q, i)));
  }

  lemma HooksEnd(w: Words, t: Tid, f: Fate, q: nat, i: Inst)
    ensures Runs(Go(w, HooksSpawn(q, i)), t, f, 3) ==
            Outcome(w.(live := w.live + {i}, hooksMu := None, startMu := None), None)
  {
    var one := w.(live := w.live + {i});
    var two := one.(hooksMu := None);
    assert Act(w, t, HooksSpawn(q, i), true) == Go(one, HooksUnlock(q));
    assert Act(one, t, HooksUnlock(q), true) == Go(two, StartUnlock(q));
    Three(w, t, f, HooksSpawn(q, i), Go(one, HooksUnlock(q)), Go(two, StartUnlock(q)),
          Outcome(two.(startMu := None), None));
  }

  // ---- whole calls ----

  lemma Returned(o: Outcome, t: Tid, f: Fate, m: nat)
    requires m <= ENOUGH && Runs(o, t, f, m).next.None?
    ensures Runs(o, t, f, ENOUGH) == Runs(o, t, f, m)
  {
    RunsOn(o, t, f, m, ENOUGH - m);
  }

  /** The words after a start that nobody disturbs. */
  function Started(w: Words, f: Fate): Words {
    var q := w.startSeq + 1;
    var numbered := w.(startSeq := q, attempts := w.attempts + [q]);
    var stopped := if w.state == Running then Stopped(numbered, Initialized) else numbered;
    var i := w.made;
    if stopped.state != Initialized then stopped
    else if !f.launches then stopped.(starter := q)
    else
      var started := stopped.(state := Running, starter := q, made := i + 1, running := Some(i));
      if f.clash then started.(subCancel := Some(i), live := stopped.live - Subs(stopped.subCancel) + {i}) else started
  }

  lemma StartRuns(w: Words, t: Tid, f: Fate)
    requires w.startMu == None && w.hooksMu == None && w.state != Starting && f.translates
    requires w.state == Running || w.running == None
    ensures Runs(Go(w, StartSeq), t, f, ENOUGH) == Outcome(Started(w, f), None)
  {
    hide Act;
    var q := w.startSeq + 1;
    var numbered := w.(startSeq := q, startMu := Some(t), attempts := w.attempts + [q]);
    var stopped := if w.state == Running then Stopped(numbered, Initialized) else numbered;
    var n := if w.state == Running then 8 else 1;
    NumberRuns(w, t, f);
    StopRuns(numbered, t, f, ByStart(q));
    RunsOn(Go(w, StartSeq), t, f, 3, n);
    if stopped.state != Initialized {
      GivesUp(stopped, t, f, q);
      RunsOn(Go(w, StartSeq), t, f, 3 + n, 2);
      Returned(Go(w, StartSeq), t, f, 3 + n + 2);
    } else if !f.launches {
      FailRuns(stopped, t, f, q);
      RunsOn(Go(w, StartSeq), t, f, 3 + n, 4);
      Returned(Go(w, StartSeq), t, f, 3 + n + 4);
    } else {
      var started := stopped.(state := Running, starter := q, made := w.made + 1, running := Some(w.made));
      LaunchRuns(stopped, t, f, q);
      RunsOn(Go(w, StartSeq), t, f, 3 + n, 4);
      HooksRun(started, t, f, q, w.made);
      RunsOn(Go(w, StartSeq), t, f, 3 + n + 4, if f.clash then 9 else 2);
      Returned(Go(w, StartSeq), t, f, 3 + n + 4 + if f.clash then 9 else 2);
    }
  }

  /** At rest no lock is held, nothing is Starting, and only a Running service has an instance or a subscription. */
  lemma AtRest(steps: seq<Step>)
    requires Runnable(NEW_SERVICE, steps) && Quiescent(After(NEW_SERVICE, steps))
    ensures var w := After(NEW_SERVICE, steps).w;
            && w.startMu == None && w.hooksMu == None && w.state != Starting
            && (w.state != Running ==> w.running == None && w.live == {}) && w.live <= Subs(w.subCancel)
  {
    InvAfterRun(steps);
    HookSafety(steps);
    InstanceConservation(steps);
    hide InvSeq, InvInstances, InvSlot, InvHooks, InOnePlace;
    var s := After(NEW_SERVICE, steps);
    assert forall t: Tid :: !HasStartMu(s, t) && !HasHooksMu(s, t);
    assert s.w.state != Running ==> forall i :: i !in s.w.live;
  }

  /** How often each instance is closed once the one in the slot is. */
  function ClosedToo(w: Words): multiset<Inst> {
    w.closes + (if w.running.Some? then multiset{w.running.value} else multiset{})
  }

  /** A call made on a service at rest, and nobody else. */
  ghost function Made(s: Sys, t: Tid, entry: Pc, f: Fate): Sys
    requires Enabled(s, Call(t, entry))
  {
    AloneFor(Do(s, Call(t, entry)), t, f, ENOUGH)
  }

  lemma MadeRuns(s: Sys, t: Tid, entry: Pc, f: Fate)
    requires Quiescent(s) && entry in {StartSeq, StopLoad(Host), DestroyLoad}
    ensures Made(s, t, entry, f) == Placed(Runs(Go(s.w, entry), t, f, ENOUGH), t)
  {
    assert Do(s, Call(t, entry)) == Placed(Go(s.w, entry), t);
    AloneRuns(Go(s.w, entry), t, f, ENOUGH);
  }

  /** Stop alone: a Running service is Initialized again, its instance detached and closed, its subscription ended;
      otherwise nothing changes. */
  lemma StopAlone(steps: seq<Step>, t: Tid, f: Fate)
    requires Runnable(NEW_SERVICE, steps) && Quiescent(After(NEW_SERVICE, steps))
    ensures var w := After(NEW_SERVICE, steps).w;
            var n := Made(After(NEW_SERVICE, steps), t, StopLoad(Host), f);
            && Quiescent(n) && (w.state != Running ==> n.w == w)
            && (w.state == Running ==>
                  n.w == w.(state := Initialized, running := None, subCancel := None, live := {},
                            closes := ClosedToo(w)))
  {
    AtRest(steps);
    var s := After(NEW_SERVICE, steps);
    MadeRuns(s, t, StopLoad(Host), f);
    hide Act;
    StopRuns(s.w, t, f, Host);
    Returned(Go(s.w, StopLoad(Host)), t, f, if s.w.state == Running then 8 else 1);
    assert s.w.live - Subs(s.w.subCancel) == {};
  }

  /** Destroy alone: whatever the service was, it is Destroyed, and what was running is stopped. */
  lemma DestroyAlone(steps: seq<Step>, t: Tid, f: Fate)
    requires Runnable(NEW_SERVICE, steps) && Quiescent(After(NEW_SERVICE, steps))
    ensures var w := After(NEW_SERVICE, steps).w;
            var n := Made(After(NEW_SERVICE, steps), t, DestroyLoad, f);
            && Quiescent(n) && n.w.state == Destroyed && n.w.running == None && n.w.live == {}
            && n.w.closes == ClosedToo(w)
            && n.w.(state := w.state, running := w.running, subCancel := w.subCancel, live := w.live,
                    closes := w.closes) == w
  {
    AtRest(steps);
    var s := After(NEW_SERVICE, steps);
    MadeRuns(s, t, DestroyLoad, f);
    hide Act;
    DestroyRuns(s.w, t, f);
    Returned(Go(s.w, DestroyLoad), t, f, if s.w.state == Destroyed then 1 else 8);
    assert s.w.live - Subs(s.w.subCancel) == {};
    assert s.w.running.None? ==> ClosedToo(s.w) == s.w.closes;
  }

  /** What a start makes of the words when nobody disturbs it. */
  ghost predicate StartsAs(w: Words, f: Fate, n: Words) {
    && n.startSeq == w.startSeq + 1 && n.attempts == w.attempts + [w.startSeq + 1]
    && (w.state !in {Initialized, Running} ==> n == w.(startSeq := n.startSeq, attempts := n.attempts))
    && (w.state in {Initialized, Running} ==>
          && n.closes == ClosedToo(w) && n.lost == w.lost && n.startMu == n.hooksMu == None
          && if f.launches then
               n.state == Running && n.running == Some(w.made) && n.made == w.made + 1
               && n.live == (if f.clash then {w.made} else {}) && (f.clash ==> n.subCancel == Some(w.made))
             else n.state == Initialized && n.running == None && n.made == w.made && n.live == {})
  }

  lemma StartedIs(w: Words, f: Fate)
    requires w.startMu == None && w.hooksMu == None && w.state != Starting && w.live <= Subs(w.subCancel)
    requires w.state != Running ==> w.running == None && w.live == {}
    ensures StartsAs(w, f, Started(w, f))
  {
    assert w.live - Subs(w.subCancel) == {};
    assert w.running.None? ==> ClosedToo(w) == w.closes;
  }

  /** StartWithContent alone. Content that does not translate changes nothing. Before InitContext and after Destroy a
      start only takes a number. Otherwise what was running is stopped and closed, and a new instance is Running in the
      slot, with its subscription live exactly if the Clash API is on; if it does not start, the service is Initialized
      without one. */
  lemma StartAloneExactly(steps: seq<Step>, t: Tid, f: Fate)
    requires Runnable(NEW_SERVICE, steps) && Quiescent(After(NEW_SERVICE, steps))
    ensures var w := After(NEW_SERVICE, steps).w;
            var n := Made(After(NEW_SERVICE, steps), t, StartSeq, f);
            Quiescent(n) && if f.translates then StartsAs(w, f, n.w) else n.w == w
  {
    AtRest(steps);
    var s := After(NEW_SERVICE, steps);
    MadeRuns(s, t, StartSeq, f);
    if f.translates {
      hide Act;
      StartRuns(s.w, t, f);
      StartedIs(s.w, f);
    } else {
      assert Act(s.w, t, StartSeq, false) == Outcome(s.w, None);
      hide Act;
      assert Runs(Go(s.w, StartSeq), t, f, 1) == Outcome(s.w, None);
      Returned(Go(s.w, StartSeq), t, f, 1);
    }
  }
}
