/** No call waits for ever: from any state the service can get into, the calls in flight can all return, by steps of
    their own. So startMu and hooksMu are never held in a circle, a callback that calls Stop while its start is paused
    included, and no retry loop depends on a call that is still to come. */
module Progress {
  import opened Basics
  import opened ServiceProtocol
  import opened ServiceInvariants
  import opened ServiceTheorems
  import Initialization

  function Then(c: Caller): nat { if c.Host? then 0 else 13 }

  /** A bound on the steps a call still takes when it runs alone. */
  function Distance(w: Words, pc: Pc): nat {
    match pc
    case StartSeq => 25
    case StartLock(_) => 24
    case StartCheck(_) => 23
    case StopCas(c, seen) => (if w.state == seen then 7 else 9) + Then(c)
    case StopLoad(c) => 8 + Then(c)
    case DestroyCas(seen) => if w.state == seen then 7 else 9
    case DestroyLoad => 8
    case Detach(c) => 6 + Then(c)
    case UnsubLock(c, _) => 5 + Then(c)
    case UnsubSwap(c, _) => 4 + Then(c)
    case UnsubCancel(c, _, _) => 3 + Then(c)
    case UnsubUnlock(c, _) => 2 + Then(c)
    case CloseOld(c, _) => 1 + Then(c)
    case StartCas(_) => 13
    case Launch(_) => 12
    case StoreSlot(_, _) => 11
    case CasRunning(_, _) => 10
    case ClashLookup(_, _) => 9
    case HooksLock(_, _) => 8
    case HooksSwap(_, _) => 7
    case HooksCancel(_, _, _) => 6
    case HooksCheck(_, _) => 5
    case HooksInstall(_, _) => 4
    case HooksSpawn(_, _) => 3
    case HooksUnlock(_) => 2
    case FailSwap(_, _) => 3
    case FailClose(_, _) => 2
    case Rollback(_) => 2
    case StartUnlock(_) => 1
  }

  /** The call waits for a mutex that is held. */
  predicate Waits(w: Words, pc: Pc) {
    (pc.StartLock? && w.startMu.Some?) || ((pc.HooksLock? || pc.UnsubLock?) && w.hooksMu.Some?)
  }

  predicate Nearer(w: Words, pc: Pc, o: Outcome) { o.next.Some? ==> Distance(o.w, o.next.value) < Distance(w, pc) }

  lemma NearerInStart(w: Words, t: Tid, pc: Pc)
    requires !Waits(w, pc)
    ensures InStart(pc) ==> Nearer(w, pc, StepStart(w, t, pc, true))
    ensures InLaunch(pc) ==> Nearer(w, pc, StepLaunch(w, pc, true))
  {}

  lemma NearerInHooks(w: Words, t: Tid, pc: Pc)
    requires !Waits(w, pc)
    ensures InHooks(pc) ==> Nearer(w, pc, StepHooks(w, t, pc, true))
  {}

  lemma NearerInStop(w: Words, t: Tid, pc: Pc)
    requires !Waits(w, pc)
    ensures InStop(pc) ==> Nearer(w, pc, StepStop(w, pc))
    ensures InTail(pc) ==> Nearer(w, pc, StepTail(w, t, pc))
  {}

  lemma MovesNearer(w: Words, t: Tid, pc: Pc)
    requires !Waits(w, pc)
    ensures Nearer(w, pc, Act(w, t, pc, true))
  {
    hide Nearer, Waits, StepStart, StepLaunch, StepHooks, StepStop, StepTail;
    NearerInStart(w, t, pc);
    NearerInHooks(w, t, pc);
    NearerInStop(w, t, pc);
  }

  /** The call runs the tail of a host's Stop or of Destroy, which takes no start lock. */
  predicate InHostTail(pc: Pc) { InTail(pc) && pc.caller.Host? }

  /** No mutex the call may still need is held by another. */
  predicate Clear(s: Sys, t: Tid)
    requires t in s.threads
  {
    && (s.w.startMu in {None, Some(t)} || InHostTail(s.threads[t]))
    && s.w.hooksMu in {None, Some(t)}
  }

  lemma HostTailStays(w: Words, t: Tid, pc: Pc)
    requires InHostTail(pc)
    ensures var o := Act(w, t, pc, true); o.next.None? || InHostTail(o.next.value)
  {}

  lemma StaysClear(s: Sys, t: Tid)
    requires t in s.threads && InvLocks(s) && Clear(s, t)
    ensures !Waits(s.w, s.threads[t])
    ensures var n := Do(s, Move(t, true)); InvLocks(n) && (t in n.threads ==> Clear(n, t))
  {
    LocksKept(s, Move(t, true));
    LocksOf(s.w, t, s.threads[t], true);
    if InHostTail(s.threads[t]) { HostTailStays(s.w, t, s.threads[t]); }
    assert HasStartMu(s, t) == HoldsStart(s.threads[t]) && HasHooksMu(s, t) == HoldsHooks(s.threads[t]);
    hide Act;
  }

  ghost predicate OnlyMoves(steps: seq<Step>) { forall i :: 0 <= i < |steps| ==> steps[i].Move? }

  /** By steps of calls in flight alone, the machine gets from s to n. */
  ghost predicate Advances(s: Sys, n: Sys) {
    exists steps :: OnlyMoves(steps) && Runnable(s, steps) && After(s, steps) == n
  }

  lemma AdvancesFirst(s: Sys, t: Tid, n: Sys)
    requires t in s.threads && Advances(Do(s, Move(t, true)), n)
    ensures Advances(s, n)
  {
    var steps :| OnlyMoves(steps) && Runnable(Do(s, Move(t, true)), steps) && After(Do(s, Move(t, true)), steps) == n;
    var all := [Move(t, true)] + steps;
    assert all[1..] == steps;
    assert OnlyMoves(all) && Runnable(s, all) && After(s, all) == n;
  }

  lemma AdvancesOn(s: Sys, m: Sys, n: Sys)
    requires Advances(s, m) && Advances(m, n)
    ensures Advances(s, n)
  {
    var one :| OnlyMoves(one) && Runnable(s, one) && After(s, one) == m;
    var two :| OnlyMoves(two) && Runnable(m, two) && After(m, two) == n;
    RunThenRun(s, one, two);
    assert OnlyMoves(one + two);
  }

  /** A call with a clear way returns. */
  lemma {:induction false} ReturnsAlone(s: Sys, t: Tid) returns (n: Sys)
    requires t in s.threads && InvLocks(s) && Clear(s, t)
    ensures Advances(s, n) && InvLocks(n) && n.threads == s.threads - {t}
    decreases Distance(s.w, s.threads[t])
  {
    var m := Do(s, Move(t, true));
    StaysClear(s, t);
    MovesNearer(s.w, t, s.threads[t]);
    hide InvLocks, Clear, Act, Distance, Waits;
    if t in m.threads {
      n := ReturnsAlone(m, t);
      assert m.threads - {t} == s.threads - {t};
    } else {
      n := m;
      assert OnlyMoves([]) && Runnable(m, []) && After(m, []) == m;
    }
    AdvancesFirst(s, t, n);
  }

  /** Some call has a clear way: whoever holds hooksMu, else whoever holds startMu, else anyone. */
  lemma SomeoneIsClear(s: Sys) returns (t: Tid)
    requires InvLocks(s) && s.threads != map[]
    ensures t in s.threads && Clear(s, t)
  {
    if s.w.hooksMu.Some? {
      t := s.w.hooksMu.value;
      assert HasHooksMu(s, t);
      assert HasStartMu(s, t) || InHostTail(s.threads[t]);
    } else if s.w.startMu.Some? {
      t := s.w.startMu.value;
      assert HasStartMu(s, t);
    } else {
      t :| t in s.threads;
    }
  }

  lemma {:induction false} AllReturn(s: Sys) returns (n: Sys)
    requires InvLocks(s)
    ensures Advances(s, n) && Quiescent(n)
    decreases |s.threads|
  {
    hide InvLocks, Clear;
    if s.threads == map[] {
      n := s;
      assert OnlyMoves([]) && Runnable(s, []) && After(s, []) == s;
    } else {
      var t := SomeoneIsClear(s);
      var m := ReturnsAlone(s, t);
      FewerCalls(s.threads, t);
      n := AllReturn(m);
      AdvancesOn(s, m, n);
    }
  }

  lemma FewerCalls(threads: map<Tid, Pc>, t: Tid)
    requires t in threads
    ensures |threads - {t}| < |threads|
  {
    assert (threads - {t}).Keys == threads.Keys - {t};
    assert |(threads - {t}).Keys| == |threads - {t}| && |threads.Keys| == |threads|;
  }

  /** From every state of every run, failing InitContexts included, all calls in flight can return without any other
      being made. */
  lemma CallsCanReturn(events: seq<Initialization.Event>)
    requires Initialization.Ends(events).Some?
    ensures exists n :: Advances(Initialization.Ends(events).value.s, n) && Quiescent(n)
  {
    Initialization.SurvivesAlong(events);
    var n := AllReturn(Initialization.Ends(events).value.s);
  }
}
