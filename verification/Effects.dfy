/** What a call of Stop or Destroy that has returned has done, whoever acted beside it. */
module Effects {
  import opened ServiceProtocol
  import opened ServiceInvariants
  import opened ServiceTheorems

  /** At some moment of the run the service was neither Starting nor Running. */
  ghost predicate WasStopped(s: Sys, steps: seq<Step>)
    requires Runnable(s, steps)
    decreases |steps|
  {
    || s.w.state !in {Starting, Running}
    || (steps != [] && WasStopped(Do(s, steps[0]), steps[1..]))
  }

  ghost predicate WasDestroyed(s: Sys, steps: seq<Step>)
    requires Runnable(s, steps)
    decreases |steps|
  {
    || s.w.state == Destroyed
    || (steps != [] && WasDestroyed(Do(s, steps[0]), steps[1..]))
  }

  predicate StillStopping(pc: Pc) { (pc.StopLoad? || pc.StopCas?) && pc.caller.Host? }

  predicate StillDestroying(pc: Pc) { pc.DestroyLoad? || pc.DestroyCas? }

  lemma StoppingGoesOn(s: Sys, a: Step, t: Tid)
    requires Enabled(s, a) && t in s.threads && StillStopping(s.threads[t]) && s.w.state in {Starting, Running}
    ensures var n := Do(s, a);
            n.w.state !in {Starting, Running} || (t in n.threads && StillStopping(n.threads[t]))
  {
    if a.Move? && a.t == t { assert Act(s.w, t, s.threads[t], a.ok) == StepStop(s.w, s.threads[t]); }
    hide Act;
  }

  lemma DestroyingGoesOn(s: Sys, a: Step, t: Tid)
    requires Enabled(s, a) && t in s.threads && StillDestroying(s.threads[t]) && s.w.state != Destroyed
    ensures var n := Do(s, a);
            n.w.state == Destroyed || (t in n.threads && StillDestroying(n.threads[t]))
  {
    if a.Move? && a.t == t { assert Act(s.w, t, s.threads[t], a.ok) == StepStop(s.w, s.threads[t]); }
    hide Act;
  }

  lemma {:induction false} StopsWhile(s: Sys, t: Tid, steps: seq<Step>)
    requires Runnable(s, steps) && t in s.threads && StillStopping(s.threads[t]) && t !in After(s, steps).threads
    ensures WasStopped(s, steps)
    decreases |steps|
  {
    if s.w.state in {Starting, Running} {
      StoppingGoesOn(s, steps[0], t);
      hide Do, Enabled;
      if Do(s, steps[0]).w.state in {Starting, Running} { StopsWhile(Do(s, steps[0]), t, steps[1..]); }
    }
  }

  lemma {:induction false} DestroysWhile(s: Sys, t: Tid, steps: seq<Step>)
    requires Runnable(s, steps) && t in s.threads && StillDestroying(s.threads[t]) && t !in After(s, steps).threads
    ensures WasDestroyed(s, steps)
    decreases |steps|
  {
    if s.w.state != Destroyed {
      DestroyingGoesOn(s, steps[0], t);
      hide Do, Enabled;
      if Do(s, steps[0]).w.state != Destroyed { DestroysWhile(Do(s, steps[0]), t, steps[1..]); }
    }
  }

  /** A Stop that has returned has seen the service neither Starting nor Running at some moment since it was called. */
  lemma StopTakesEffect(s: Sys, t: Tid, steps: seq<Step>)
    requires Enabled(s, Call(t, StopLoad(Host))) && Runnable(Do(s, Call(t, StopLoad(Host))), steps)
    requires t !in After(Do(s, Call(t, StopLoad(Host))), steps).threads
    ensures WasStopped(Do(s, Call(t, StopLoad(Host))), steps)
  {
    StopsWhile(Do(s, Call(t, StopLoad(Host))), t, steps);
  }

  /** A Destroy that has returned has seen it Destroyed. */
  lemma DestroyTakesEffect(s: Sys, t: Tid, steps: seq<Step>)
    requires Enabled(s, Call(t, DestroyLoad)) && Runnable(Do(s, Call(t, DestroyLoad)), steps)
    requires t !in After(Do(s, Call(t, DestroyLoad)), steps).threads
    ensures WasDestroyed(Do(s, Call(t, DestroyLoad)), steps)
  {
    DestroysWhile(Do(s, Call(t, DestroyLoad)), t, steps);
  }
}
