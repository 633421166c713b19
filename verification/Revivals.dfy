/** Starts that begin where a Stop has ended things. A start first stops the service itself, so a state of Initialized
    at its CAS into Starting may be its own doing, or that of a Stop nobody told it about. Here it is recorded, along a
    run, who stopped what, and which of the two it was is read off the record. */
module Revivals {
  import opened Basics
  import opened ServiceProtocol
  import opened ServiceInvariants
  import opened ServiceTheorems

  /** Since a start last entered Starting: a Stop or Destroy of the host has committed its CAS; the start has failed and
      rolled back. And the numbers of the starts whose own Stop has committed its CAS. */
  datatype Marks = Marks(halted: bool, failed: bool, cleared: set<nat>)

  const NO_MARKS := Marks(false, false, {})

  /** What a call standing at `pc` adds. */
  function MarkedBy(w: Words, pc: Pc, m: Marks): Marks {
    match pc
    case StopCas(c, seen) =>
      if w.state != seen then m else if c.Host? then m.(halted := true) else m.(cleared := m.cleared + {c.my})
    case DestroyCas(seen) => if w.state != seen then m else m.(halted := true)
    case StartCas(_) => if w.state != Initialized then m else m.(halted := false, failed := false)
    case Rollback(_) => if w.state != Starting then m else m.(failed := true)
    case _ => m
  }

  function MarkedIn(s: Sys, a: Step, m: Marks): Marks {
    if a.Move? && a.t in s.threads then MarkedBy(s.w, s.threads[a.t], m) else m
  }

  /** The marks after a run. */
  ghost function MarksAfter(s: Sys, m: Marks, steps: seq<Step>): Marks
    requires Runnable(s, steps)
    decreases |steps|
  {
    if steps == [] then m else MarksAfter(Do(s, steps[0]), MarkedIn(s, steps[0], m), steps[1..])
  }

  // ---- what holds along every run ----

  /** The start is between the CAS of its own Stop and its CAS into Starting. */
  predicate Ousting(pc: Pc, m: Marks) {
    if InTail(pc) then pc.caller.ByStart? && pc.caller.my in m.cleared else pc.StartCas? && pc.my in m.cleared
  }

  /** The number of a start that runs its own Stop and has not committed it. */
  function Asking(pc: Pc): Option<nat> {
    if (pc.StopLoad? || pc.StopCas?) && pc.caller.ByStart? then Some(pc.caller.my) else None
  }

  predicate MarksFit(w: Words, m: Marks) {
    && (w.state in {Starting, Running} ==> !m.halted && !m.failed && w.starter > 0)
    && (w.state == Created ==> w.starter == 0)
    && (m.halted && w.state != Destroyed ==> !m.failed)
    && ((m.halted && w.state != Destroyed) || m.failed ==> w.starter > 0)
    && (forall q :: q in m.cleared ==> q in w.attempts && w.starter > 0)
    && (w.made > 0 ==> w.starter > 0)
  }

  /** Where a holder of startMu can stand. */
  predicate HolderFits(w: Words, pc: Pc, m: Marks) {
    && (InTail(pc) && pc.caller.ByStart? ==> pc.caller.my in m.cleared)
    && (Asking(pc).Some? ==> Asking(pc).value in w.attempts && Asking(pc).value !in m.cleared)
    && (pc.StartCas? ==> pc.my in w.attempts)
    && (InLaunch(pc) ==> w.starter > 0)
    && (Ousting(pc, m) ==> w.state == Destroyed || (w.state == Initialized && !m.halted && !m.failed))
  }

  /** Initialized, although no Stop of the host and no failure has ended the last start. */
  predicate Ousted(w: Words, m: Marks) { w.state == Initialized && w.starter > 0 && !m.halted && !m.failed }

  ghost predicate InvMarks(s: Sys, m: Marks) {
    && MarksFit(s.w, m)
    && (forall t: Tid :: HasStartMu(s, t) ==> HolderFits(s.w, s.threads[t], m))
    && (Ousted(s.w, m) ==> exists t: Tid :: IsOusting(s, t, m))
  }

  predicate IsOusting(s: Sys, t: Tid, m: Marks) { t in s.threads && Ousting(s.threads[t], m) }

  /** What a step of the call itself needs to know, and what it leaves. */
  predicate Before(w: Words, pc: Pc, m: Marks) {
    && MarksFit(w, m) && SeenOk(pc) && (HoldsStart(pc) ==> HolderFits(w, pc, m))
    && (Waiting(pc).Some? ==> Waiting(pc).value !in w.attempts)
    && (forall q :: q in w.attempts ==> q >= 1)
  }

  predicate MarksStep(w: Words, pc: Pc, m: Marks, o: Outcome) {
    var n := MarkedBy(w, pc, m);
    && MarksFit(o.w, n)
    && (o.next.Some? && HoldsStart(o.next.value) ==> HolderFits(o.w, o.next.value, n))
    && (Ousted(o.w, n) ==> (o.next.Some? && Ousting(o.next.value, n)) || (Ousted(w, m) && !Ousting(pc, m)))
    && (!HoldsStart(pc) ==> n.cleared == m.cleared && (w.state == Initialized && !m.halted && !m.failed ==>
          o.w.state == Destroyed || (o.w.state == Initialized && !n.halted && !n.failed)))
    && (w.state == Destroyed ==> o.w.state == Destroyed)
    && (w.starter > 0 ==> o.w.starter > 0)
    && (forall q :: q in w.attempts ==> q in o.w.attempts)
  }

  lemma MarksOfStart(w: Words, t: Tid, pc: Pc, m: Marks, ok: bool)
    requires InStart(pc) && Before(w, pc, m)
    ensures MarksStep(w, pc, m, StepStart(w, t, pc, ok))
  {}

  /** The call keeps the words that matter and stays where nothing is asked of it. */
  lemma MarksOfQuiet(w: Words, pc: Pc, m: Marks, o: Outcome)
    requires Before(w, pc, m) && MarkedBy(w, pc, m) == m
    requires o.w.state == w.state && o.w.starter == w.starter && o.w.attempts == w.attempts
    requires o.w.made == w.made || w.starter > 0
    requires o.next.Some? && HoldsStart(o.next.value) ==> HolderFits(w, o.next.value, m)
    requires Ousting(pc, m) ==> o.next.Some? && Ousting(o.next.value, m)
    ensures MarksStep(w, pc, m, o)
  {
    hide MarkedBy, HoldsStart, Ousting, Waiting, SeenOk;
  }

  lemma Unasked(w: Words, pc: Pc, m: Marks)
    requires (InLaunch(pc) && w.starter > 0) || InHooks(pc) || pc.StartUnlock?
    ensures HolderFits(w, pc, m) && !Ousting(pc, m)
  {}

  lemma MarksOfPromotion(w: Words, pc: Pc, m: Marks, ok: bool)
    requires (pc.CasRunning? || pc.Rollback?) && Before(w, pc, m)
    ensures MarksStep(w, pc, m, StepLaunch(w, pc, ok))
  {
    var o := StepLaunch(w, pc, ok);
    assert o.w.starter == w.starter > 0 && o.w.attempts == w.attempts;
    Unasked(w, pc, m);
    Unasked(o.w, o.next.value, MarkedBy(w, pc, m));
  }

  lemma MarksOfLaunch(w: Words, pc: Pc, m: Marks, ok: bool)
    requires InLaunch(pc) && Before(w, pc, m)
    ensures MarksStep(w, pc, m, StepLaunch(w, pc, ok))
  {
    if pc.CasRunning? || pc.Rollback? {
      MarksOfPromotion(w, pc, m, ok);
    } else {
      var o := StepLaunch(w, pc, ok);
      assert o.w.state == w.state && o.w.starter == w.starter && o.w.attempts == w.attempts;
      assert o.next.Some? && (InLaunch(o.next.value) || o.next.value.StartUnlock?);
      assert HoldsStart(pc) && w.starter > 0;
      hide StepLaunch, MarksStep, Before, HolderFits, HoldsStart, Ousting;
      Unasked(w, pc, m);
      Unasked(w, o.next.value, m);
      MarksOfQuiet(w, pc, m, o);
    }
  }

  lemma MarksOfHooks(w: Words, t: Tid, pc: Pc, m: Marks, ok: bool)
    requires InHooks(pc) && Before(w, pc, m)
    ensures MarksStep(w, pc, m, StepHooks(w, t, pc, ok))
  {
    var o := StepHooks(w, t, pc, ok);
    assert o.w.made == w.made && o.w.state == w.state && o.w.starter == w.starter && o.w.attempts == w.attempts;
    assert o.next.Some? && (InHooks(o.next.value) || o.next.value.StartUnlock?);
    hide StepHooks, MarksStep, Before, HolderFits, HoldsStart, Ousting;
    Unasked(w, pc, m);
    Unasked(w, o.next.value, m);
    MarksOfQuiet(w, pc, m, o);
  }

  lemma MarksOfTail(w: Words, t: Tid, pc: Pc, m: Marks)
    requires InTail(pc) && Before(w, pc, m)
    ensures MarksStep(w, pc, m, StepTail(w, t, pc))
  {
    var o := StepTail(w, t, pc);
    assert o.w.made == w.made && o.w.state == w.state && o.w.starter == w.starter && o.w.attempts == w.attempts;
    if pc.caller.Host? {
      assert o.next.Some? ==> InTail(o.next.value) && o.next.value.caller.Host?;
    } else {
      assert o.next.Some? && if InTail(o.next.value) then o.next.value.caller == pc.caller
             else o.next.value == StartCas(pc.caller.my);
    }
    hide StepTail, MarksStep;
    MarksOfQuiet(w, pc, m, o);
  }

  lemma MarksOfStop(w: Words, pc: Pc, m: Marks)
    requires (pc.StopLoad? || pc.StopCas?) && Before(w, pc, m)
    ensures MarksStep(w, pc, m, StepStop(w, pc))
  {}

  lemma MarksOfDestroy(w: Words, pc: Pc, m: Marks)
    requires (pc.DestroyLoad? || pc.DestroyCas?) && Before(w, pc, m)
    ensures MarksStep(w, pc, m, StepStop(w, pc))
  {}

  lemma MarksOf(w: Words, t: Tid, pc: Pc, m: Marks, ok: bool)
    requires Before(w, pc, m)
    ensures MarksStep(w, pc, m, Act(w, t, pc, ok))
  {
    hide Before, MarksStep, StepStart, StepLaunch, StepHooks, StepStop, StepTail;
    if InLaunch(pc) { MarksOfLaunch(w, pc, m, ok); }
    else if InHooks(pc) { MarksOfHooks(w, t, pc, m, ok); }
    else if pc.StopLoad? || pc.StopCas? { MarksOfStop(w, pc, m); }
    else if InStop(pc) { MarksOfDestroy(w, pc, m); }
    else if InTail(pc) { MarksOfTail(w, t, pc, m); }
    else { MarksOfStart(w, t, pc, m, ok); }
  }

  lemma OustingHolds(s: Sys, t: Tid, m: Marks)
    requires IsOusting(s, t, m)
    ensures HasStartMu(s, t)
  {}

  lemma MoveKeepsMarks(s: Sys, m: Marks, a: Step)
    requires Enabled(s, a) && a.Move? && InvLocks(s) && InvStarting(s) && InvSeq(s) && InvMarks(s, m)
    ensures InvMarks(Do(s, a), MarkedIn(s, a, m))
  {
    var n, k := Do(s, a), MarkedIn(s, a, m);
    var pc := s.threads[a.t];
    assert HasStartMu(s, a.t) == HoldsStart(pc);
    assert Waiting(pc).Some? ==> WaitsWith(s, a.t, Waiting(pc).value);
    MarksOf(s.w, a.t, pc, m, a.ok);
    hide Act, MarkedBy, HoldsStart, SeenOk;
    forall u: Tid | HasStartMu(n, u) ensures HolderFits(n.w, n.threads[u], k) {
      if u != a.t { assert HasStartMu(s, u); }
    }
    if Ousted(n.w, k) && !IsOusting(n, a.t, k) {
      var u: Tid :| IsOusting(s, u, m);
      assert u != a.t;
      OustingHolds(s, u, m);
      assert IsOusting(n, u, k);
    }
  }

  lemma MarksKept(s: Sys, m: Marks, a: Step)
    requires Enabled(s, a) && InvLocks(s) && InvStarting(s) && InvSeq(s) && InvMarks(s, m)
    ensures InvMarks(Do(s, a), MarkedIn(s, a, m))
  {
    if a.Move? {
      hide InvLocks, InvStarting, InvSeq, InvMarks;
      MoveKeepsMarks(s, m, a);
    } else {
      var n := Do(s, a);
      assert forall t: Tid :: HasStartMu(n, t) ==> HasStartMu(s, t) && n.threads[t] == s.threads[t];
      if Ousted(n.w, m) {
        var u: Tid :| IsOusting(s, u, m);
        assert IsOusting(n, u, m);
      }
    }
  }

  lemma {:induction false} MarksAlong(s: Sys, m: Marks, steps: seq<Step>)
    requires Inv(s) && InvMarks(s, m) && Runnable(s, steps)
    ensures InvMarks(After(s, steps), MarksAfter(s, m, steps))
    decreases |steps|
  {
    if steps != [] {
      InvKept(s, steps[0]);
      MarksKept(s, m, steps[0]);
      hide Inv, InvMarks, Do, Enabled;
      MarksAlong(Do(s, steps[0]), MarkedIn(s, steps[0], m), steps[1..]);
    }
  }

  // ---- which starts revive a stopped service ----

  /** A start that enters Starting does so although the host has stopped or destroyed the service since the last start
      entered, if and only if its own Stop found nothing to stop, and the last start did not fail. */
  lemma RevivesExactly(steps: seq<Step>, t: Tid)
    requires Runnable(NEW_SERVICE, steps)
    requires var s := After(NEW_SERVICE, steps); t in s.threads && s.threads[t].StartCas? && s.w.state == Initialized
    ensures var s := After(NEW_SERVICE, steps);
            var m := MarksAfter(NEW_SERVICE, NO_MARKS, steps);
            m.halted <==> s.threads[t].my !in m.cleared && !m.failed && s.w.starter > 0
  {
    InvOfNew();
    MarksAlong(NEW_SERVICE, NO_MARKS, steps);
    InvAfterRun(steps);
    var s := After(NEW_SERVICE, steps);
    var m := MarksAfter(NEW_SERVICE, NO_MARKS, steps);
    assert HasStartMu(s, t);
    if Ousted(s.w, m) {
      var u: Tid :| IsOusting(s, u, m);
      OustingHolds(s, u, m);
      assert u == t;
    }
  }

  /** Where there is an instance, a start has entered. */
  lemma MadeBySomeStart(steps: seq<Step>)
    requires Runnable(NEW_SERVICE, steps)
    ensures var w := After(NEW_SERVICE, steps).w; w.made > 0 ==> w.starter > 0
  {
    InvOfNew();
    MarksAlong(NEW_SERVICE, NO_MARKS, steps);
  }

  /** A Stop that finds the service Initialized returns at once. It has come too late to be heard, because a start is
      past its own Stop and about to enter Starting, if and only if neither the host nor a failure has ended the last
      start. */
  lemma UnheardExactly(steps: seq<Step>)
    requires Runnable(NEW_SERVICE, steps) && After(NEW_SERVICE, steps).w.state == Initialized
    ensures var s := After(NEW_SERVICE, steps);
            var m := MarksAfter(NEW_SERVICE, NO_MARKS, steps);
            (exists t: Tid :: IsOusting(s, t, m)) <==> s.w.starter > 0 && !m.halted && !m.failed
  {
    InvOfNew();
    MarksAlong(NEW_SERVICE, NO_MARKS, steps);
    InvAfterRun(steps);
    var s := After(NEW_SERVICE, steps);
    var m := MarksAfter(NEW_SERVICE, NO_MARKS, steps);
    if t: Tid :| IsOusting(s, t, m) {
      OustingHolds(s, t, m);
      assert HolderFits(s.w, s.threads[t], m);
    }
    hide Ousting, HolderFits;
  }
}
