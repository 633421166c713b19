/** Which running instances have their events subscribed to. HookSafety bounds the live subscriptions from above; here
    is when there is one. Along a run it is recorded whose start found the Clash API, and whose subscription an
    unsubscribe of Stop or Destroy has taken away. */
module Subscriptions {
  import opened Basics
  import opened ServiceProtocol
  import opened ServiceInvariants
  import opened ServiceTheorems

  /** The instances whose start found the Clash API, those whose start asked and found none, and those whose
      subscription a Stop or Destroy has taken. */
  datatype Record = Record(found: set<Inst>, denied: set<Inst>, taken: set<Inst>)

  const NO_RECORD := Record({}, {}, {})

  function RecordedBy(w: Words, pc: Pc, ok: bool, h: Record): Record {
    match pc
    case ClashLookup(_, i) =>
      if !ok then h.(denied := h.denied + {i}) else if w.running.Some? then h.(found := h.found + {i}) else h
    case UnsubSwap(_, _) => h.(taken := h.taken + Subs(w.subCancel))
    case _ => h
  }

  function RecordedIn(s: Sys, a: Step, h: Record): Record {
    if a.Move? && a.t in s.threads then RecordedBy(s.w, s.threads[a.t], a.ok, h) else h
  }

  /** The record after a run. */
  ghost function RecordAfter(s: Sys, h: Record, steps: seq<Step>): Record
    requires Runnable(s, steps)
    decreases |steps|
  {
    if steps == [] then h else RecordAfter(Do(s, steps[0]), RecordedIn(s, steps[0], h), steps[1..])
  }

  // ---- where a start stands with its instance ----

  /** It has yet to look for the Clash API. */
  function Unasked(pc: Pc): Option<Inst> {
    match pc
    case StoreSlot(_, i) => Some(i)
    case CasRunning(_, i) => Some(i)
    case FailSwap(_, i) => Some(i)
    case ClashLookup(_, i) => Some(i)
    case _ => None
  }

  /** It has found the API and not installed the subscription. */
  function Underway(pc: Pc): Option<Inst> {
    match pc
    case HooksLock(_, i) => Some(i)
    case HooksSwap(_, i) => Some(i)
    case HooksCancel(_, i, _) => Some(i)
    case HooksCheck(_, i) => Some(i)
    case HooksInstall(_, i) => Some(i)
    case _ => None
  }

  /** It has stored the instance. */
  function Stored(pc: Pc): Option<Inst> {
    if pc.StoreSlot? then None else if Underway(pc).Some? then Underway(pc) else Unasked(pc)
  }

  predicate IsUnderway(s: Sys, t: Tid, i: Inst) { t in s.threads && Underway(s.threads[t]) == Some(i) }

  predicate IsSpawning(s: Sys, t: Tid, i: Inst) {
    t in s.threads && s.threads[t].HooksSpawn? && s.threads[t].inst == i
  }

  /** The subscription of i is installed, or about to be. */
  ghost predicate OnItsWay(s: Sys, i: Inst) {
    || (exists t: Tid :: IsUnderway(s, t, i))
    || (s.w.subCancel == Some(i) && (i in s.w.live || exists t: Tid :: IsSpawning(s, t, i)))
  }

  ghost predicate InvRecord(s: Sys, h: Record) {
    && (forall i :: i in h.found || i in h.denied ==> i < s.w.made)
    && h.taken <= h.found && h.found !! h.denied
    && (s.w.subCancel.Some? ==> s.w.subCancel.value in h.found - h.taken)
  }

  ghost predicate InvStarts(s: Sys, h: Record) {
    && (forall t: Tid, i: Inst :: t in s.threads && Unasked(s.threads[t]) == Some(i) ==>
          i !in h.found && i !in h.denied && i < s.w.made)
    && (forall t: Tid, i: Inst :: IsUnderway(s, t, i) ==> i in h.found - h.taken && s.w.subCancel != Some(i))
    && (forall t: Tid, i: Inst :: t in s.threads && Stored(s.threads[t]) == Some(i) ==> s.w.running in {None, Some(i)})
  }

  predicate IsUnasked(s: Sys, t: Tid, i: Inst) { t in s.threads && Unasked(s.threads[t]) == Some(i) }

  /** Every start that stores its instance asks. */
  ghost predicate InvAsked(s: Sys, h: Record) {
    s.w.running.Some? ==>
      var i := s.w.running.value;
      i in h.found || i in h.denied || exists t: Tid :: IsUnasked(s, t, i)
  }

  ghost predicate InvFound(s: Sys, h: Record) {
    forall i :: i in h.found && i !in h.taken && s.w.running == Some(i) ==> OnItsWay(s, i)
  }

  // ---- what one operation does ----

  /** To the words. */
  predicate WordsStep(w: Words, pc: Pc, o: Outcome) {
    && o.w.subCancel == (if pc.UnsubSwap? || pc.HooksSwap? then None
                         else if pc.HooksInstall? then Some(pc.inst) else w.subCancel)
    && o.w.live == (if pc.HooksCancel? || pc.UnsubCancel? then w.live - Subs(pc.sub)
                    else if pc.HooksSpawn? then w.live + {pc.inst} else w.live)
    && (o.w.running == w.running || o.w.running == None || (pc.StoreSlot? && o.w.running == Some(pc.inst)))
    && o.w.made >= w.made
  }

  /** To the place of a start. */
  predicate PlaceStep(w: Words, pc: Pc, ok: bool, o: Outcome) {
    var now := if o.next.Some? then Unasked(o.next.value) else None;
    var under := if o.next.Some? then Underway(o.next.value) else None;
    var stored := if o.next.Some? then Stored(o.next.value) else None;
    && (now.Some? ==> now == Unasked(pc) || (pc.Launch? && now.value == w.made && o.w.made == w.made + 1))
    && (pc.ClashLookup? ==> now == None && under == if ok && w.running.Some? then Some(pc.inst) else None)
    && (under.Some? && !pc.ClashLookup? ==> under == Underway(pc))
    && (Underway(pc).Some? ==>
          || under == Underway(pc)
          || (pc.HooksCheck? && w.running != Underway(pc))
          || (pc.HooksInstall? && o.next.Some? && o.next.value.HooksSpawn? && o.next.value.inst == pc.inst))
    && (stored.Some? ==> stored == Stored(pc) || (pc.StoreSlot? && stored == Some(pc.inst) && o.w.running == stored))
    && (pc.StoreSlot? ==> stored == Some(pc.inst))
    && (Unasked(pc).Some? ==> now == Unasked(pc) || pc.ClashLookup? || o.w.running == None)
    && (pc.StoreSlot? ==> now == Some(pc.inst))
    && (Unasked(pc).Some? || Underway(pc).Some? ==> HoldsStart(pc))
  }

  lemma StepOfStart(w: Words, t: Tid, pc: Pc, ok: bool)
    requires InStart(pc)
    ensures WordsStep(w, pc, StepStart(w, t, pc, ok)) && PlaceStep(w, pc, ok, StepStart(w, t, pc, ok))
  {}

  lemma StepOfLaunch(w: Words, pc: Pc, ok: bool)
    requires InLaunch(pc)
    ensures WordsStep(w, pc, StepLaunch(w, pc, ok)) && PlaceStep(w, pc, ok, StepLaunch(w, pc, ok))
  {}

  lemma StepOfHooks(w: Words, t: Tid, pc: Pc, ok: bool)
    requires InHooks(pc)
    ensures WordsStep(w, pc, StepHooks(w, t, pc, ok)) && PlaceStep(w, pc, ok, StepHooks(w, t, pc, ok))
  {
    WordsOfHooks(w, t, pc, ok);
    hide WordsStep;
  }

  lemma WordsOfHooks(w: Words, t: Tid, pc: Pc, ok: bool)
    requires InHooks(pc)
    ensures WordsStep(w, pc, StepHooks(w, t, pc, ok))
  {}

  lemma StepOfStop(w: Words, pc: Pc, ok: bool)
    requires InStop(pc)
    ensures WordsStep(w, pc, StepStop(w, pc)) && PlaceStep(w, pc, ok, StepStop(w, pc))
  {}

  lemma StepOfTail(w: Words, t: Tid, pc: Pc, ok: bool)
    requires InTail(pc)
    ensures WordsStep(w, pc, StepTail(w, t, pc)) && PlaceStep(w, pc, ok, StepTail(w, t, pc))
  {}

  lemma StepOf(w: Words, t: Tid, pc: Pc, ok: bool)
    ensures WordsStep(w, pc, Act(w, t, pc, ok)) && PlaceStep(w, pc, ok, Act(w, t, pc, ok))
  {
    hide WordsStep, PlaceStep, StepStart, StepLaunch, StepHooks, StepStop, StepTail;
    if InLaunch(pc) { StepOfLaunch(w, pc, ok); }
    else if InHooks(pc) { StepOfHooks(w, t, pc, ok); }
    else if InStop(pc) { StepOfStop(w, pc, ok); }
    else if InTail(pc) { StepOfTail(w, t, pc, ok); }
    else { StepOfStart(w, t, pc, ok); }
  }

  // ---- every step keeps it ----

  ghost predicate InvSubs(s: Sys, h: Record) {
    InvRecord(s, h) && InvStarts(s, h) && InvAsked(s, h) && InvFound(s, h)
  }

  /** Only one call is in a start at all. */
  lemma OneStarter(s: Sys, t: Tid, u: Tid)
    requires InvLocks(s) && t in s.threads && u in s.threads
    requires Unasked(s.threads[t]).Some? || Underway(s.threads[t]).Some?
    requires Unasked(s.threads[u]).Some? || Underway(s.threads[u]).Some?
    ensures t == u
  {
    assert HasStartMu(s, t) && HasStartMu(s, u);
  }

  lemma RecordKept(s: Sys, h: Record, a: Step)
    requires Enabled(s, a) && a.Move? && InvLocks(s) && InvSubs(s, h)
    ensures InvRecord(Do(s, a), RecordedIn(s, a, h))
  {
    var pc := s.threads[a.t];
    StepOf(s.w, a.t, pc, a.ok);
    hide Act;
    if pc.HooksInstall? { assert IsUnderway(s, a.t, pc.inst); }
    if pc.ClashLookup? { assert Unasked(pc) == Some(pc.inst); }
  }

  lemma StartsKept(s: Sys, h: Record, a: Step)
    requires Enabled(s, a) && a.Move? && InvLocks(s) && InvSubs(s, h)
    ensures InvStarts(Do(s, a), RecordedIn(s, a, h))
  {
    var n, k := Do(s, a), RecordedIn(s, a, h);
    var pc := s.threads[a.t];
    StepOf(s.w, a.t, pc, a.ok);
    hide Act;
    forall t: Tid, i: Inst | t in n.threads && Unasked(n.threads[t]) == Some(i)
      ensures i !in k.found && i !in k.denied && i < n.w.made
    {
      if t != a.t && pc.ClashLookup? { OneStarter(s, t, a.t); }
    }
    forall t: Tid, i: Inst | IsUnderway(n, t, i) ensures i in k.found - k.taken && n.w.subCancel != Some(i) {
      if t != a.t {
        assert IsUnderway(s, t, i);
        if pc.HooksInstall? { OneStarter(s, t, a.t); }
      } else if !pc.ClashLookup? {
        assert IsUnderway(s, t, i);
      }
    }
    forall t: Tid, i: Inst | t in n.threads && Stored(n.threads[t]) == Some(i) ensures n.w.running in {None, Some(i)} {
      if t != a.t && pc.StoreSlot? { OneStarter(s, t, a.t); }
    }
  }

  lemma AskedKept(s: Sys, h: Record, a: Step)
    requires Enabled(s, a) && a.Move? && InvLocks(s) && InvSubs(s, h)
    ensures InvAsked(Do(s, a), RecordedIn(s, a, h))
  {
    var n, k := Do(s, a), RecordedIn(s, a, h);
    var pc := s.threads[a.t];
    StepOf(s.w, a.t, pc, a.ok);
    hide Act;
    if n.w.running.Some? {
      var i := n.w.running.value;
      if pc.StoreSlot? && n.w.running == Some(pc.inst) {
        assert IsUnasked(n, a.t, i);
      } else if i !in h.found && i !in h.denied {
        var t: Tid :| IsUnasked(s, t, i);
        assert t != a.t || !pc.ClashLookup? ==> IsUnasked(n, t, i);
      }
    }
  }

  lemma UnderwayGoesOn(s: Sys, h: Record, a: Step, i: Inst, u: Tid)
    requires Enabled(s, a) && a.Move? && InvSubs(s, h) && s.w.running == Some(i) && IsUnderway(s, u, i)
    ensures OnItsWay(Do(s, a), i)
  {
    var n := Do(s, a);
    var pc := s.threads[a.t];
    StepOf(s.w, a.t, pc, a.ok);
    hide Act;
    if u != a.t || Underway(pc) == (if a.t in n.threads then Underway(n.threads[a.t]) else None) {
      assert IsUnderway(n, u, i);
    } else {
      assert IsSpawning(n, a.t, i);
    }
  }

  /** Whoever moves is not about to replace or end a subscription that stays. */
  lemma LeavesInstalled(s: Sys, h: Record, a: Step, i: Inst)
    requires Enabled(s, a) && a.Move? && InvLocks(s) && InvShape(s) && InvSubs(s, h)
    requires i !in RecordedIn(s, a, h).taken && s.w.running == Some(i) && s.w.subCancel == Some(i)
    ensures var pc := s.threads[a.t];
            Underway(pc).None? && !pc.HooksCancel? && !pc.UnsubCancel? && !pc.UnsubSwap? && !pc.HooksSwap?
  {
    var pc := s.threads[a.t];
    hide InvRecord, InvAsked, InvFound;
    assert forall j: Inst :: Underway(pc) == Some(j) ==> IsUnderway(s, a.t, j);
    assert forall j: Inst :: Underway(pc) == Some(j) ==> Stored(pc) == Some(j);
    assert pc.HooksCancel? || pc.UnsubCancel? ==> HasHooksMu(s, a.t);
  }

  lemma InstalledGoesOn(s: Sys, h: Record, a: Step, i: Inst)
    requires Enabled(s, a) && a.Move? && InvLocks(s) && InvShape(s) && InvSubs(s, h)
    requires i !in RecordedIn(s, a, h).taken && s.w.running == Some(i) && s.w.subCancel == Some(i)
    requires i in s.w.live || exists t: Tid :: IsSpawning(s, t, i)
    ensures OnItsWay(Do(s, a), i)
  {
    var n := Do(s, a);
    var pc := s.threads[a.t];
    StepOf(s.w, a.t, pc, a.ok);
    LeavesInstalled(s, h, a, i);
    hide Act, InvLocks, InvShape, InvSubs;
    if i !in s.w.live {
      var u: Tid :| IsSpawning(s, u, i);
      assert u != a.t ==> IsSpawning(n, u, i);
    }
  }

  /** The instance was there, found and not taken, before the step. */
  lemma StillOnItsWay(s: Sys, h: Record, a: Step, i: Inst)
    requires Enabled(s, a) && a.Move? && InvLocks(s) && InvShape(s) && InvSubs(s, h)
    requires i !in RecordedIn(s, a, h).taken && s.w.running == Some(i) && OnItsWay(s, i)
    ensures OnItsWay(Do(s, a), i)
  {
    hide InvLocks, InvShape, InvSubs, Do, Enabled;
    if u: Tid :| IsUnderway(s, u, i) { UnderwayGoesOn(s, h, a, i, u); } else { InstalledGoesOn(s, h, a, i); }
  }

  lemma FoundKept(s: Sys, h: Record, a: Step)
    requires Enabled(s, a) && a.Move? && InvLocks(s) && InvShape(s) && InvSubs(s, h)
    ensures InvFound(Do(s, a), RecordedIn(s, a, h))
  {
    var n, k := Do(s, a), RecordedIn(s, a, h);
    var pc := s.threads[a.t];
    StepOf(s.w, a.t, pc, a.ok);
    assert forall j: Inst :: Unasked(pc) == Some(j) ==> j !in h.found;
    assert pc.StoreSlot? ==> Unasked(pc) == Some(pc.inst);
    hide Act, OnItsWay, InvShape;
    forall i | i in k.found && i !in k.taken && n.w.running == Some(i) ensures OnItsWay(n, i) {
      if i in h.found {
        StillOnItsWay(s, h, a, i);
      } else {
        NewOnItsWay(n, a.t, i);
      }
    }
  }

  lemma NewOnItsWay(s: Sys, t: Tid, i: Inst)
    requires IsUnderway(s, t, i)
    ensures OnItsWay(s, i)
  {}

  lemma OthersKeep(s: Sys, h: Record, a: Step)
    requires Enabled(s, a) && !a.Move? && InvSubs(s, h)
    ensures InvSubs(Do(s, a), h)
  {
    var n := Do(s, a);
    if a.Call? { assert Unasked(a.entry) == None && Underway(a.entry) == None; }
    assert forall t: Tid, i: Inst :: IsUnderway(n, t, i) ==> IsUnderway(s, t, i);
    assert forall t: Tid, i: Inst :: IsUnasked(s, t, i) ==> IsUnasked(n, t, i);
    forall i | OnItsWay(s, i) ensures OnItsWay(n, i) {
      if t: Tid :| IsUnderway(s, t, i) { assert IsUnderway(n, t, i); }
      if t: Tid :| IsSpawning(s, t, i) { assert IsSpawning(n, t, i); }
    }
  }

  lemma SubsKept(s: Sys, h: Record, a: Step)
    requires Enabled(s, a) && InvLocks(s) && InvShape(s) && InvSubs(s, h)
    ensures InvSubs(Do(s, a), RecordedIn(s, a, h))
  {
    hide InvLocks, InvShape, InvRecord, InvStarts, InvAsked, InvFound, Do, Enabled;
    if a.Move? {
      RecordKept(s, h, a);
      StartsKept(s, h, a);
      AskedKept(s, h, a);
      FoundKept(s, h, a);
    } else {
      OthersKeep(s, h, a);
    }
  }

  lemma {:induction false} SubsAlong(s: Sys, h: Record, steps: seq<Step>)
    requires Inv(s) && InvSubs(s, h) && Runnable(s, steps)
    ensures InvSubs(After(s, steps), RecordAfter(s, h, steps))
    decreases |steps|
  {
    if steps != [] {
      InvKept(s, steps[0]);
      SubsKept(s, h, steps[0]);
      hide Inv, InvSubs, Do, Enabled;
      SubsAlong(Do(s, steps[0]), RecordedIn(s, steps[0], h), steps[1..]);
    }
  }

  /** At rest the start of the running instance has asked for the Clash API, once; and the instance is the one
      subscribed to if and only if that found it and no Stop or Destroy, stalled since before that start, has taken the
      subscription. Otherwise nothing is subscribed to. */
  lemma SubscribedExactly(steps: seq<Step>, i: Inst)
    requires Runnable(NEW_SERVICE, steps)
    requires Quiescent(After(NEW_SERVICE, steps)) && After(NEW_SERVICE, steps).w.running == Some(i)
    ensures var w := After(NEW_SERVICE, steps).w;
            var h := RecordAfter(NEW_SERVICE, NO_RECORD, steps);
            && w.state == Running && (i in h.found <==> i !in h.denied)
            && (w.live == {i} && w.subCancel == Some(i) <==> i in h.found && i !in h.taken)
            && (w.live == {i} || w.live == {})
  {
    InvOfNew();
    SubsAlong(NEW_SERVICE, NO_RECORD, steps);
    InvAfterRun(steps);
    HookSafety(steps);
    InstanceConservation(steps);
    var s := After(NEW_SERVICE, steps);
    assert forall j :: j in s.w.live ==> j == i;
  }

  // ---- runs in which no start overtakes an unsubscribe ----

  /** The step is not a start entering Starting while a Stop or Destroy that has committed its CAS still owes an
      unsubscribe. */
  ghost predicate Prompt(s: Sys, a: Step) {
    a.Move? && a.t in s.threads && s.threads[a.t].StartCas? && s.w.state == Initialized ==> !SomeOwes(s)
  }

  ghost predicate PromptRun(s: Sys, steps: seq<Step>)
    requires Runnable(s, steps)
    decreases |steps|
  {
    steps == [] || (Prompt(s, steps[0]) && PromptRun(Do(s, steps[0]), steps[1..]))
  }

  /** The call has emptied the slot and still owes the unsubscribe. */
  predicate Detached(pc: Pc) { pc.UnsubLock? || pc.UnsubSwap? }

  predicate IsDetached(s: Sys, t: Tid) { t in s.threads && Detached(s.threads[t]) }

  predicate HasStored(s: Sys, t: Tid) { t in s.threads && (s.threads[t].CasRunning? || s.threads[t].FailSwap?) }

  ghost predicate InvPrompt(s: Sys, h: Record) {
    && (SomeOwes(s) ==> s.w.state !in {Starting, Running})
    && ((exists t: Tid :: IsDetached(s, t)) ==> s.w.running == None || exists u: Tid :: HasStored(s, u))
    && (forall i :: i in h.taken ==> s.w.running != Some(i))
  }

  predicate PromptStep(w: Words, pc: Pc, o: Outcome) {
    && (o.w.state == Starting ==> w.state == Starting || (pc.StartCas? && w.state == Initialized))
    && (o.w.state == Running ==> w.state in {Starting, Running})
    && (o.next.Some? && OwesUnsubscribe(o.next.value) ==>
          OwesUnsubscribe(pc) || o.w.state in {Initialized, Destroyed})
    && (o.next.Some? && Detached(o.next.value) ==> Detached(pc) || o.w.running == None)
    && (pc.CasRunning? && w.state !in {Starting, Running} ==> o.next.Some? && o.next.value.FailSwap?)
    && (pc.FailSwap? ==> o.w.running == None)
    && (pc.StoreSlot? ==> o.next.Some? && o.next.value.CasRunning?)
    && (pc.StartCas? ==> !(o.next.Some? && OwesUnsubscribe(o.next.value)))
    && (o.w.state == Starting && w.state != Starting ==> !OwesUnsubscribe(pc))
  }

  lemma PromptOfStart(w: Words, t: Tid, pc: Pc, ok: bool)
    requires SeenOk(pc)
    ensures InStart(pc) ==> PromptStep(w, pc, StepStart(w, t, pc, ok))
    ensures InLaunch(pc) ==> PromptStep(w, pc, StepLaunch(w, pc, ok))
  {}

  lemma PromptOfStop(w: Words, t: Tid, pc: Pc)
    requires SeenOk(pc)
    ensures InStop(pc) ==> PromptStep(w, pc, StepStop(w, pc))
    ensures InTail(pc) ==> PromptStep(w, pc, StepTail(w, t, pc))
  {}

  lemma PromptOfHooks(w: Words, t: Tid, pc: Pc, ok: bool)
    requires InHooks(pc)
    ensures PromptStep(w, pc, StepHooks(w, t, pc, ok))
  {}

  lemma PromptOf(w: Words, t: Tid, pc: Pc, ok: bool)
    requires SeenOk(pc)
    ensures PromptStep(w, pc, Act(w, t, pc, ok))
  {
    hide PromptStep, StepStart, StepLaunch, StepHooks, StepStop, StepTail, SeenOk;
    PromptOfStart(w, t, pc, ok);
    PromptOfStop(w, t, pc);
    if InHooks(pc) { PromptOfHooks(w, t, pc, ok); }
  }

  lemma PromptStates(s: Sys, h: Record, a: Step)
    requires Enabled(s, a) && a.Move? && Prompt(s, a) && InvStarting(s) && InvPrompt(s, h)
    ensures SomeOwes(Do(s, a)) ==> Do(s, a).w.state !in {Starting, Running}
  {
    var n := Do(s, a);
    PromptOf(s.w, a.t, s.threads[a.t], a.ok);
    hide Act;
    if u: Tid :| IsOwing(n, u) {
      assert IsOwing(s, u) || u == a.t;
      assert OwesUnsubscribe(s.threads[a.t]) ==> IsOwing(s, a.t);
    }
  }

  lemma PromptSlot(s: Sys, h: Record, a: Step)
    requires Enabled(s, a) && a.Move? && InvStarting(s) && InvPrompt(s, h)
    ensures var n := Do(s, a);
            (exists t: Tid :: IsDetached(n, t)) ==> n.w.running == None || exists u: Tid :: HasStored(n, u)
  {
    var n := Do(s, a);
    var pc := s.threads[a.t];
    PromptOf(s.w, a.t, pc, a.ok);
    StepOf(s.w, a.t, pc, a.ok);
    hide Act;
    if t: Tid :| IsDetached(n, t) {
      if t != a.t || Detached(pc) {
        assert IsDetached(s, t) && IsOwing(s, t);
        if s.w.running != None {
          var u: Tid :| HasStored(s, u);
          assert u != a.t ==> HasStored(n, u);
          assert u == a.t && pc.CasRunning? ==> HasStored(n, u);
        }
        if pc.StoreSlot? { assert HasStored(n, a.t); }
      }
    }
  }

  lemma PromptTaken(s: Sys, h: Record, a: Step)
    requires Enabled(s, a) && a.Move? && InvLocks(s) && InvSubs(s, h) && InvPrompt(s, h)
    ensures forall i :: i in RecordedIn(s, a, h).taken ==> Do(s, a).w.running != Some(i)
  {
    var pc := s.threads[a.t];
    StepOf(s.w, a.t, pc, a.ok);
    hide Act;
    if pc.StoreSlot? { assert Unasked(pc) == Some(pc.inst); }
    if pc.UnsubSwap? {
      assert IsDetached(s, a.t);
      if s.w.running != None {
        var u: Tid :| HasStored(s, u);
        assert Unasked(s.threads[u]) == Stored(s.threads[u]) == Some(s.threads[u].inst);
      }
    }
  }

  lemma PromptKept(s: Sys, h: Record, a: Step)
    requires Enabled(s, a) && Prompt(s, a) && InvLocks(s) && InvStarting(s) && InvSubs(s, h) && InvPrompt(s, h)
    ensures InvPrompt(Do(s, a), RecordedIn(s, a, h))
  {
    if a.Move? {
      PromptStates(s, h, a);
      PromptSlot(s, h, a);
      PromptTaken(s, h, a);
      hide Do, InvSubs, InvLocks, InvStarting;
    } else {
      var n := Do(s, a);
      assert forall t: Tid :: IsOwing(n, t) ==> IsOwing(s, t);
      assert forall t: Tid :: IsDetached(n, t) ==> IsDetached(s, t);
      assert forall t: Tid :: HasStored(s, t) ==> HasStored(n, t);
    }
  }

  lemma {:induction false} PromptAlong(s: Sys, h: Record, steps: seq<Step>)
    requires Inv(s) && InvSubs(s, h) && InvPrompt(s, h) && Runnable(s, steps) && PromptRun(s, steps)
    ensures InvPrompt(After(s, steps), RecordAfter(s, h, steps))
    decreases |steps|
  {
    if steps != [] {
      InvKept(s, steps[0]);
      SubsKept(s, h, steps[0]);
      PromptKept(s, h, steps[0]);
      hide Inv, InvSubs, InvPrompt, Do, Enabled, Prompt;
      PromptAlong(Do(s, steps[0]), RecordedIn(s, steps[0], h), steps[1..]);
    }
  }

  /** If no start overtakes an unsubscribe, that is exactly when the start found the Clash API. */
  lemma PromptlySubscribedExactly(steps: seq<Step>, i: Inst)
    requires Runnable(NEW_SERVICE, steps) && PromptRun(NEW_SERVICE, steps)
    requires Quiescent(After(NEW_SERVICE, steps)) && After(NEW_SERVICE, steps).w.running == Some(i)
    ensures var w := After(NEW_SERVICE, steps).w;
            w.live == {i} && w.subCancel == Some(i) <==> i in RecordAfter(NEW_SERVICE, NO_RECORD, steps).found
  {
    InvOfNew();
    PromptAlong(NEW_SERVICE, NO_RECORD, steps);
    SubscribedExactly(steps, i);
  }
}
