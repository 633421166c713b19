/** The inductive invariants of the service machine: each holds of a new service and is kept by every step of
    every call, whatever the interleaving. */
module ServiceInvariants {
  import opened Basics
  import opened ServiceProtocol

  // ---- where a program counter stands ----

  predicate InStart(pc: Pc) { !InLaunch(pc) && !InHooks(pc) && !InStop(pc) && !InTail(pc) }

  /** The call holds startMu. */
  predicate HoldsStart(pc: Pc) {
    if pc.StopLoad? || pc.StopCas? || InTail(pc) then pc.caller.ByStart?
    else !pc.StartSeq? && !pc.StartLock? && !pc.DestroyLoad? && !pc.DestroyCas?
  }

  /** The call holds hooksMu. */
  predicate HoldsHooks(pc: Pc) {
    pc.HooksSwap? || pc.HooksCancel? || pc.HooksCheck? || pc.HooksInstall? || pc.HooksSpawn? || pc.HooksUnlock? ||
    pc.UnsubSwap? || pc.UnsubCancel? || pc.UnsubUnlock?
  }

  /** The start stands between its CAS into Starting and its CAS out of it. */
  predicate InWindow(pc: Pc) {
    pc.Launch? || pc.Rollback? || pc.StoreSlot? || pc.CasRunning?
  }

  /** The call has committed its Stop or Destroy CAS and has yet to take the subscription away. */
  predicate OwesUnsubscribe(pc: Pc) {
    pc.Detach? || pc.UnsubLock? || pc.UnsubSwap?
  }

  /** The subscription the call has taken out of subCancel and is about to cancel. */
  function Cancelling(pc: Pc): Option<Inst> {
    match pc
    case HooksCancel(_, _, sub) => sub
    case UnsubCancel(_, _, sub) => sub
    case _ => None
  }

  /** The subscription the call is about to install, after the generation check. */
  function Installing(pc: Pc): Option<Inst> {
    match pc
    case HooksInstall(_, i) => Some(i)
    case HooksSpawn(_, i) => Some(i)
    case _ => None
  }

  /** The instance only this call can still close: not stored yet, or taken out of the slot. */
  function Holds(pc: Pc): Option<Inst> {
    match pc
    case StoreSlot(_, i) => Some(i)
    case FailClose(_, prev) => prev
    case UnsubLock(_, prev) => prev
    case UnsubSwap(_, prev) => prev
    case UnsubCancel(_, prev, _) => prev
    case UnsubUnlock(_, prev) => prev
    case CloseOld(_, prev) => prev
    case _ => None
  }

  // ---- mutual exclusion ----

  predicate HasStartMu(s: Sys, t: Tid) { t in s.threads && HoldsStart(s.threads[t]) }
  predicate HasHooksMu(s: Sys, t: Tid) { t in s.threads && HoldsHooks(s.threads[t]) }

  ghost predicate InvLocks(s: Sys) {
    && (s.w.startMu.Some? ==> HasStartMu(s, s.w.startMu.value))
    && (forall t: Tid :: HasStartMu(s, t) ==> s.w.startMu == Some(t))
    && (s.w.hooksMu.Some? ==> HasHooksMu(s, s.w.hooksMu.value))
    && (forall t: Tid :: HasHooksMu(s, t) ==> s.w.hooksMu == Some(t))
  }

  /** A mutex is untouched, taken while free, or released by its holder. */
  predicate MutexStep(before: Option<Tid>, after: Option<Tid>, t: Tid, held: bool, holds: bool) {
    || (after == before && holds == held)
    || (before == None && after == Some(t) && holds && !held)
    || (after == None && held && !holds)
  }

  predicate LocksStep(w: Words, t: Tid, pc: Pc, o: Outcome) {
    && MutexStep(w.startMu, o.w.startMu, t, HoldsStart(pc), o.next.Some? && HoldsStart(o.next.value))
    && MutexStep(w.hooksMu, o.w.hooksMu, t, HoldsHooks(pc), o.next.Some? && HoldsHooks(o.next.value))
  }

  lemma LocksOfStart(w: Words, t: Tid, pc: Pc, ok: bool)
    requires InStart(pc)
    ensures LocksStep(w, t, pc, StepStart(w, t, pc, ok))
  {}

  lemma LocksOfLaunch(w: Words, t: Tid, pc: Pc, ok: bool)
    requires InLaunch(pc)
    ensures LocksStep(w, t, pc, StepLaunch(w, pc, ok))
  {
    var o := StepLaunch(w, pc, ok);
    assert o.w.startMu == w.startMu && o.w.hooksMu == w.hooksMu;
    assert o.next.Some? && HoldsStart(o.next.value) && !HoldsHooks(o.next.value);
  }

  lemma LocksOfHooks(w: Words, t: Tid, pc: Pc, ok: bool)
    requires InHooks(pc)
    ensures LocksStep(w, t, pc, StepHooks(w, t, pc, ok))
  {}

  lemma LocksOfStop(w: Words, t: Tid, pc: Pc)
    requires InStop(pc)
    ensures LocksStep(w, t, pc, StepStop(w, pc))
  {}

  lemma LocksOfTail(w: Words, t: Tid, pc: Pc)
    requires InTail(pc)
    ensures LocksStep(w, t, pc, StepTail(w, t, pc))
  {}

  lemma LocksOf(w: Words, t: Tid, pc: Pc, ok: bool)
    ensures LocksStep(w, t, pc, Act(w, t, pc, ok))
  {
    if InLaunch(pc) { LocksOfLaunch(w, t, pc, ok); }
    else if InHooks(pc) { LocksOfHooks(w, t, pc, ok); }
    else if InStop(pc) { LocksOfStop(w, t, pc); }
    else if InTail(pc) { LocksOfTail(w, t, pc); }
    else { LocksOfStart(w, t, pc, ok); }
  }

  lemma LocksKept(s: Sys, a: Step)
    requires Enabled(s, a) && InvLocks(s)
    ensures InvLocks(Do(s, a))
  {
    if a.Move? {
      LocksOf(s.w, a.t, s.threads[a.t], a.ok);
      var n := Do(s, a);
      assert HasStartMu(s, a.t) == HoldsStart(s.threads[a.t]);
      assert HasHooksMu(s, a.t) == HoldsHooks(s.threads[a.t]);
      forall t: Tid | HasStartMu(n, t) ensures n.w.startMu == Some(t) {
        if t != a.t { assert HasStartMu(s, t); }
      }
      forall t: Tid | HasHooksMu(n, t) ensures n.w.hooksMu == Some(t) {
        if t != a.t { assert HasHooksMu(s, t); }
      }
    }
  }

  // ---- one owner of Starting ----

  /** A start that has entered Starting and not reached Running. */
  predicate NotYetRunning(pc: Pc) { InWindow(pc) || pc.FailSwap? }

  ghost predicate InvStarting(s: Sys) {
    && (s.w.state == Starting ==>
          s.w.startMu.Some? && s.w.startMu.value in s.threads
          && InWindow(s.threads[s.w.startMu.value]) && s.threads[s.w.startMu.value].my == s.w.starter)
    && (forall t: Tid :: t in s.threads && NotYetRunning(s.threads[t]) ==> s.w.state != Running)
    && (forall t: Tid :: t in s.threads ==> SeenOk(s.threads[t]))
  }

  /** The state a CAS expects is one the loop before it lets through. */
  predicate SeenOk(pc: Pc) {
    && (pc.StopCas? ==> pc.seen in {Running, Starting})
    && (pc.DestroyCas? ==> pc.seen != Destroyed)
  }

  predicate StartingStep(w: Words, pc: Pc, o: Outcome) {
    && (o.w.state == Starting ==>
          || (w.state == Starting && o.w.starter == w.starter
              && (InWindow(pc) ==> o.next.Some? && InWindow(o.next.value) && o.next.value.my == pc.my))
          || (o.next.Some? && InWindow(o.next.value) && o.next.value.my == o.w.starter && HoldsStart(pc)))
    && (o.w.state == Running ==> w.state == Running || (pc.CasRunning? && o.next.Some? && !NotYetRunning(o.next.value)))
    && (o.next.Some? && NotYetRunning(o.next.value) && !NotYetRunning(pc) ==> o.w.state == Starting)
    && (o.next.Some? ==> SeenOk(o.next.value))
    && (NotYetRunning(pc) ==> HoldsStart(pc))
  }

  lemma StartingOfStart(w: Words, t: Tid, pc: Pc, ok: bool)
    requires InStart(pc) && SeenOk(pc)
    ensures StartingStep(w, pc, StepStart(w, t, pc, ok))
  {}

  lemma StartingOfLaunch(w: Words, t: Tid, pc: Pc, ok: bool)
    requires InLaunch(pc) && SeenOk(pc)
    ensures StartingStep(w, pc, StepLaunch(w, pc, ok))
  {}

  lemma StartingOfHooks(w: Words, t: Tid, pc: Pc, ok: bool)
    requires InHooks(pc) && SeenOk(pc)
    ensures StartingStep(w, pc, StepHooks(w, t, pc, ok))
  {}

  lemma StartingOfStop(w: Words, t: Tid, pc: Pc, ok: bool)
    requires InStop(pc) && SeenOk(pc)
    ensures StartingStep(w, pc, StepStop(w, pc))
  {}

  lemma StartingOfTail(w: Words, t: Tid, pc: Pc, ok: bool)
    requires InTail(pc) && SeenOk(pc)
    ensures StartingStep(w, pc, StepTail(w, t, pc))
  {}

  lemma StartingOf(w: Words, t: Tid, pc: Pc, ok: bool)
    requires SeenOk(pc)
    ensures StartingStep(w, pc, Act(w, t, pc, ok))
  {
    if InLaunch(pc) { StartingOfLaunch(w, t, pc, ok); }
    else if InHooks(pc) { StartingOfHooks(w, t, pc, ok); }
    else if InStop(pc) { StartingOfStop(w, t, pc, ok); }
    else if InTail(pc) { StartingOfTail(w, t, pc, ok); }
    else { StartingOfStart(w, t, pc, ok); }
  }

  lemma StartingKept(s: Sys, a: Step)
    requires Enabled(s, a) && InvLocks(s) && InvStarting(s)
    ensures InvStarting(Do(s, a))
  {
    if a.Move? {
      StartingOf(s.w, a.t, s.threads[a.t], a.ok);
      LocksOf(s.w, a.t, s.threads[a.t], a.ok);
      var n := Do(s, a);
      assert HasStartMu(s, a.t) == HoldsStart(s.threads[a.t]);
      forall u: Tid | u in n.threads && NotYetRunning(n.threads[u]) ensures n.w.state != Running {
        assert u != a.t ==> HasStartMu(s, u);
      }
    }
  }

  // ---- the start sequence ----

  /** The sequence number of a call that has yet to reach the coalescing check. */
  function Waiting(pc: Pc): Option<nat> {
    match pc
    case StartLock(q) => Some(q)
    case StartCheck(q) => Some(q)
    case _ => None
  }

  predicate WaitsWith(s: Sys, t: Tid, q: nat) { t in s.threads && Waiting(s.threads[t]) == Some(q) }

  ghost predicate SomeWaits(s: Sys, q: nat) { exists t: Tid :: WaitsWith(s, t, q) }

  ghost predicate Increasing(q: seq<nat>) { forall i, j :: 0 <= i < j < |q| ==> q[i] < q[j] }

  ghost predicate InvSeq(s: Sys) {
    && (forall t: Tid, q: nat :: WaitsWith(s, t, q) ==>
          1 <= q <= s.w.startSeq && q !in s.w.attempts && q !in s.w.coalesced)
    && (forall t: Tid, u: Tid, q: nat :: WaitsWith(s, t, q) && WaitsWith(s, u, q) ==> t == u)
    && Increasing(s.w.attempts)
    && (forall q :: q in s.w.attempts ==> 1 <= q <= s.w.startSeq)
    && (forall q :: q in s.w.coalesced ==> 1 <= q < s.w.startSeq)
    && (forall q: nat :: 1 <= q <= s.w.startSeq ==> q in s.w.attempts || q in s.w.coalesced || SomeWaits(s, q))
  }

  predicate SeqStep(w: Words, pc: Pc, o: Outcome) {
    var now := Waiting(pc);
    var later := if o.next.Some? then Waiting(o.next.value) else None;
    || (o.w.startSeq == w.startSeq && o.w.attempts == w.attempts && o.w.coalesced == w.coalesced && later == now)
    || (now == None && o.w.startSeq == w.startSeq + 1 && later == Some(w.startSeq + 1)
        && o.w.attempts == w.attempts && o.w.coalesced == w.coalesced)
    || (now == Some(w.startSeq) && o.w.startSeq == w.startSeq && later == None
        && o.w.attempts == w.attempts + [w.startSeq] && o.w.coalesced == w.coalesced)
    || (now.Some? && now != Some(w.startSeq) && o.w.startSeq == w.startSeq && later == None
        && o.w.attempts == w.attempts && o.w.coalesced == w.coalesced + {now.value})
  }

  lemma SeqOfStart(w: Words, t: Tid, pc: Pc, ok: bool)
    requires InStart(pc)
    ensures SeqStep(w, pc, StepStart(w, t, pc, ok))
  {}

  lemma SeqOfLaunch(w: Words, t: Tid, pc: Pc, ok: bool)
    requires InLaunch(pc)
    ensures SeqStep(w, pc, StepLaunch(w, pc, ok))
  {}

  lemma SeqOfHooks(w: Words, t: Tid, pc: Pc, ok: bool)
    requires InHooks(pc)
    ensures SeqStep(w, pc, StepHooks(w, t, pc, ok))
  {}

  lemma SeqOfStop(w: Words, t: Tid, pc: Pc, ok: bool)
    requires InStop(pc)
    ensures SeqStep(w, pc, StepStop(w, pc))
  {}

  lemma SeqOfTail(w: Words, t: Tid, pc: Pc, ok: bool)
    requires InTail(pc)
    ensures SeqStep(w, pc, StepTail(w, t, pc))
  {}

  lemma SeqOf(w: Words, t: Tid, pc: Pc, ok: bool)
    ensures SeqStep(w, pc, Act(w, t, pc, ok))
  {
    if InLaunch(pc) { SeqOfLaunch(w, t, pc, ok); }
    else if InHooks(pc) { SeqOfHooks(w, t, pc, ok); }
    else if InStop(pc) { SeqOfStop(w, t, pc, ok); }
    else if InTail(pc) { SeqOfTail(w, t, pc, ok); }
    else { SeqOfStart(w, t, pc, ok); }
  }

  /** Every call but `a.t` waits as before; `a.t` waits with the number its operation left it. */
  lemma WaitersAfter(s: Sys, a: Step)
    requires Enabled(s, a) && a.Move?
    ensures forall u: Tid, q: nat :: u != a.t ==> WaitsWith(Do(s, a), u, q) == WaitsWith(s, u, q)
    ensures forall q: nat :: WaitsWith(s, a.t, q) <==> Waiting(s.threads[a.t]) == Some(q)
    ensures var o := Act(s.w, a.t, s.threads[a.t], a.ok);
            forall q: nat :: WaitsWith(Do(s, a), a.t, q) <==> (o.next.Some? && Waiting(o.next.value) == Some(q))
  {}

  lemma NumbersKept(s: Sys, a: Step)
    requires Enabled(s, a) && InvSeq(s) && a.Move?
    ensures var n := Do(s, a);
            forall q: nat :: 1 <= q <= n.w.startSeq ==> q in n.w.attempts || q in n.w.coalesced || SomeWaits(n, q)
  {
    SeqOf(s.w, a.t, s.threads[a.t], a.ok);
    WaitersAfter(s, a);
    var n := Do(s, a);
    forall q: nat | 1 <= q <= n.w.startSeq ensures q in n.w.attempts || q in n.w.coalesced || SomeWaits(n, q) {
      if q <= s.w.startSeq {
        if SomeWaits(s, q) {
          var u: Tid :| WaitsWith(s, u, q);
          assert u != a.t ==> WaitsWith(n, u, q);
          assert WaitsWith(n, a.t, q) || u != a.t || q in n.w.attempts || q in n.w.coalesced;
        }
      } else {
        assert WaitsWith(n, a.t, q);
      }
    }
  }

  lemma AttemptsIncrease(s: Sys, a: Step)
    requires Enabled(s, a) && InvSeq(s) && a.Move?
    ensures Increasing(Do(s, a).w.attempts)
  {
    SeqOf(s.w, a.t, s.threads[a.t], a.ok);
    if Do(s, a).w.attempts != s.w.attempts {
      assert WaitsWith(s, a.t, s.w.startSeq);
      forall i | 0 <= i < |s.w.attempts| ensures s.w.attempts[i] < s.w.startSeq {
        assert s.w.attempts[i] in s.w.attempts;
      }
    }
  }

  lemma SeqKeptByMove(s: Sys, a: Step)
    requires Enabled(s, a) && InvSeq(s) && a.Move?
    ensures InvSeq(Do(s, a))
  {
    NumbersKept(s, a);
    AttemptsIncrease(s, a);
    SeqOf(s.w, a.t, s.threads[a.t], a.ok);
    WaitersAfter(s, a);
  }

  lemma SeqKept(s: Sys, a: Step)
    requires Enabled(s, a) && InvSeq(s)
    ensures InvSeq(Do(s, a))
  {
    if a.Move? {
      SeqKeptByMove(s, a);
    } else {
      var n := Do(s, a);
      assert forall u: Tid, q: nat :: WaitsWith(n, u, q) == WaitsWith(s, u, q);
      forall q: nat | SomeWaits(s, q) ensures SomeWaits(n, q) {
        var u: Tid :| WaitsWith(s, u, q);
        assert WaitsWith(n, u, q);
      }
    }
  }

  // ---- where every instance is ----

  predicate HoldsInst(s: Sys, t: Tid, i: Inst) { t in s.threads && Holds(s.threads[t]) == Some(i) }

  ghost predicate SomeHolds(s: Sys, i: Inst) { exists t: Tid :: HoldsInst(s, t, i) }

  /** Every started instance is in exactly one place: the slot, one call's hands, closed (once), or lost. */
  ghost predicate InvInstances(s: Sys) {
    && (forall t: Tid, i: Inst :: HoldsInst(s, t, i) ==>
          i < s.w.made && s.w.running != Some(i) && i !in s.w.closes && i !in s.w.lost)
    && (forall t: Tid, u: Tid, i: Inst :: HoldsInst(s, t, i) && HoldsInst(s, u, i) ==> t == u)
    && (s.w.running.Some? ==>
          s.w.running.value < s.w.made && s.w.running.value !in s.w.closes && s.w.running.value !in s.w.lost)
    && (forall i: Inst :: i in s.w.closes ==> i < s.w.made && i !in s.w.lost && s.w.closes[i] == 1)
    && (forall i: Inst :: i in s.w.lost ==> i < s.w.made)
    && (forall i: Inst :: i < s.w.made ==>
          s.w.running == Some(i) || SomeHolds(s, i) || i in s.w.closes || i in s.w.lost)
  }

  predicate InstStep(w: Words, pc: Pc, o: Outcome) {
    var now := Holds(pc);
    var later := if o.next.Some? then Holds(o.next.value) else None;
    // nothing moves
    || (later == now && o.w.running == w.running && o.w.made == w.made && o.w.closes == w.closes && o.w.lost == w.lost)
    // an instance starts
    || (now == None && later == Some(w.made) && o.w.made == w.made + 1
        && o.w.running == w.running && o.w.closes == w.closes && o.w.lost == w.lost)
    // Store: into the slot, over whatever was there
    || (now.Some? && later == None && o.w.running == now && o.w.made == w.made && o.w.closes == w.closes
        && o.w.lost == w.lost + (if w.running.Some? then {w.running.value} else {}))
    // Swap: out of the slot
    || (now == None && later == w.running && o.w.running == None
        && o.w.made == w.made && o.w.closes == w.closes && o.w.lost == w.lost)
    // Close
    || (now.Some? && later == None && o.w.closes == w.closes + multiset{now.value}
        && o.w.running == w.running && o.w.made == w.made && o.w.lost == w.lost)
  }

  lemma InstOfStart(w: Words, t: Tid, pc: Pc, ok: bool)
    requires InStart(pc)
    ensures InstStep(w, pc, StepStart(w, t, pc, ok))
  {}

  lemma InstOfLaunch(w: Words, t: Tid, pc: Pc, ok: bool)
    requires InLaunch(pc)
    ensures InstStep(w, pc, StepLaunch(w, pc, ok))
  {}

  lemma InstOfHooks(w: Words, t: Tid, pc: Pc, ok: bool)
    requires InHooks(pc)
    ensures InstStep(w, pc, StepHooks(w, t, pc, ok))
  {}

  lemma InstOfStop(w: Words, t: Tid, pc: Pc, ok: bool)
    requires InStop(pc)
    ensures InstStep(w, pc, StepStop(w, pc))
  {}

  lemma InstOfTail(w: Words, t: Tid, pc: Pc, ok: bool)
    requires InTail(pc)
    ensures InstStep(w, pc, StepTail(w, t, pc))
  {
    if pc.CloseOld? {
      assert Holds(pc) == pc.prev;
    } else if pc.Detach? {
      assert Holds(pc) == None;
    }
  }

  lemma InstOf(w: Words, t: Tid, pc: Pc, ok: bool)
    ensures InstStep(w, pc, Act(w, t, pc, ok))
  {
    if InLaunch(pc) { InstOfLaunch(w, t, pc, ok); }
    else if InHooks(pc) { InstOfHooks(w, t, pc, ok); }
    else if InStop(pc) { InstOfStop(w, t, pc, ok); }
    else if InTail(pc) { InstOfTail(w, t, pc, ok); }
    else { InstOfStart(w, t, pc, ok); }
  }

  lemma HoldersAfter(s: Sys, a: Step)
    requires Enabled(s, a) && a.Move?
    ensures forall u: Tid, i: Inst :: u != a.t ==> HoldsInst(Do(s, a), u, i) == HoldsInst(s, u, i)
    ensures forall i: Inst :: HoldsInst(s, a.t, i) <==> Holds(s.threads[a.t]) == Some(i)
    ensures var o := Act(s.w, a.t, s.threads[a.t], a.ok);
            forall i: Inst :: HoldsInst(Do(s, a), a.t, i) <==> (o.next.Some? && Holds(o.next.value) == Some(i))
  {}

  lemma PlacesKept(s: Sys, a: Step)
    requires Enabled(s, a) && a.Move? && InvInstances(s)
    ensures var n := Do(s, a);
            forall i: Inst :: i < n.w.made ==>
              n.w.running == Some(i) || SomeHolds(n, i) || i in n.w.closes || i in n.w.lost
  {
    InstOf(s.w, a.t, s.threads[a.t], a.ok);
    HoldersAfter(s, a);
    var n := Do(s, a);
    forall i: Inst | i < n.w.made
      ensures n.w.running == Some(i) || SomeHolds(n, i) || i in n.w.closes || i in n.w.lost
    {
      if i < s.w.made && SomeHolds(s, i) {
        var u: Tid :| HoldsInst(s, u, i);
        assert u != a.t ==> HoldsInst(n, u, i);
      }
      assert HoldsInst(n, a.t, i) ==> SomeHolds(n, i);
    }
  }

  lemma InstancesKeptByMove(s: Sys, a: Step)
    requires Enabled(s, a) && a.Move? && InvInstances(s)
    ensures InvInstances(Do(s, a))
  {
    PlacesKept(s, a);
    InstOf(s.w, a.t, s.threads[a.t], a.ok);
    HoldersAfter(s, a);
  }

  lemma InstancesKept(s: Sys, a: Step)
    requires Enabled(s, a) && InvInstances(s)
    ensures InvInstances(Do(s, a))
  {
    if a.Move? {
      InstancesKeptByMove(s, a);
    } else {
      var n := Do(s, a);
      assert forall u: Tid, i: Inst :: HoldsInst(n, u, i) == HoldsInst(s, u, i);
      forall i: Inst | SomeHolds(s, i) ensures SomeHolds(n, i) {
        var u: Tid :| HoldsInst(s, u, i);
        assert HoldsInst(n, u, i);
      }
    }
  }

  // ---- what a filled slot means ----

  predicate IsPending(s: Sys, t: Tid) { t in s.threads && s.threads[t].Detach? }

  /** Some call has committed its Stop or Destroy CAS and has yet to swap the slot. */
  ghost predicate SomePending(s: Sys) { exists t: Tid :: IsPending(s, t) }

  /** The start that holds startMu has just stored its instance. */
  predicate JustStored(s: Sys) {
    s.w.startMu.Some? && s.w.startMu.value in s.threads
    && (s.threads[s.w.startMu.value].CasRunning? || s.threads[s.w.startMu.value].FailSwap?)
  }

  ghost predicate InvSlot(s: Sys) {
    && (s.w.running.Some? ==> s.w.state == Running || SomePending(s) || JustStored(s))
    && (JustStored(s) ==> s.w.running.None? || s.w.running == Some(s.threads[s.w.startMu.value].inst))
  }

  predicate SlotStep(w: Words, pc: Pc, o: Outcome) {
    var stored := o.next.Some? && (o.next.value.CasRunning? || o.next.value.FailSwap?);
    && (stored ==> HoldsStart(pc) && HoldsStart(o.next.value))
    && (o.w.running == w.running || o.w.running == None || (pc.StoreSlot? && o.w.running == Some(pc.inst)))
    && (stored ==> (pc.StoreSlot? && o.next.value.inst == pc.inst)
                   || (pc.CasRunning? && o.next.value.inst == pc.inst && o.w.running == w.running))
    && (o.w.running.Some? ==>
          && !pc.Detach? && !pc.FailSwap?
          && (pc.StoreSlot? || pc.CasRunning? ==> stored || o.w.state == Running)
          && (w.state == Running ==> pc.StoreSlot? || o.w.state == Running || (o.next.Some? && o.next.value.Detach?)))
  }

  lemma SlotOfStart(w: Words, t: Tid, pc: Pc, ok: bool)
    requires InStart(pc)
    ensures SlotStep(w, pc, StepStart(w, t, pc, ok))
  {}

  lemma SlotOfLaunch(w: Words, t: Tid, pc: Pc, ok: bool)
    requires InLaunch(pc)
    ensures SlotStep(w, pc, StepLaunch(w, pc, ok))
  {}

  lemma SlotOfHooks(w: Words, t: Tid, pc: Pc, ok: bool)
    requires InHooks(pc)
    ensures SlotStep(w, pc, StepHooks(w, t, pc, ok))
  {}

  lemma SlotOfStop(w: Words, t: Tid, pc: Pc, ok: bool)
    requires InStop(pc)
    ensures SlotStep(w, pc, StepStop(w, pc))
  {}

  lemma SlotOfTail(w: Words, t: Tid, pc: Pc, ok: bool)
    requires InTail(pc)
    ensures SlotStep(w, pc, StepTail(w, t, pc))
  {}

  lemma SlotOf(w: Words, t: Tid, pc: Pc, ok: bool)
    ensures SlotStep(w, pc, Act(w, t, pc, ok))
  {
    if InLaunch(pc) { SlotOfLaunch(w, t, pc, ok); }
    else if InHooks(pc) { SlotOfHooks(w, t, pc, ok); }
    else if InStop(pc) { SlotOfStop(w, t, pc, ok); }
    else if InTail(pc) { SlotOfTail(w, t, pc, ok); }
    else { SlotOfStart(w, t, pc, ok); }
  }

  lemma SlotKept(s: Sys, a: Step)
    requires Enabled(s, a) && InvLocks(s) && InvSlot(s)
    ensures InvSlot(Do(s, a))
  {
    var n := Do(s, a);
    if a.Move? {
      SlotOf(s.w, a.t, s.threads[a.t], a.ok);
      LocksOf(s.w, a.t, s.threads[a.t], a.ok);
      assert HasStartMu(s, a.t) == HoldsStart(s.threads[a.t]);
      if SomePending(s) {
        var u: Tid :| IsPending(s, u);
        assert u != a.t ==> IsPending(n, u);
      }
      assert a.t in n.threads && n.threads[a.t].Detach? ==> IsPending(n, a.t);
    } else if SomePending(s) {
      var u: Tid :| IsPending(s, u);
      assert IsPending(n, u);
    }
  }

  // ---- subscriptions: what subCancel holds ----

  function Subs(sub: Option<Inst>): set<Inst> { if sub.Some? then {sub.value} else {} }

  /** What the live subscriptions can be while the holder of hooksMu stands at `pc`. */
  predicate ShapeAt(w: Words, pc: Pc) {
    match pc
    case HooksCancel(_, _, sub) => w.subCancel == None && w.live <= Subs(sub)
    case UnsubCancel(_, _, sub) => w.subCancel == None && w.live <= Subs(sub)
    case HooksCheck(_, _) => w.subCancel == None && w.live == {}
    case HooksInstall(_, _) => w.subCancel == None && w.live == {}
    case HooksSpawn(_, i) => w.subCancel == Some(i) && w.live == {}
    case _ => w.live <= Subs(w.subCancel)
  }

  ghost predicate InvShape(s: Sys) {
    if s.w.hooksMu.Some? && s.w.hooksMu.value in s.threads then ShapeAt(s.w, s.threads[s.w.hooksMu.value])
    else s.w.live <= Subs(s.w.subCancel)
  }

  predicate ShapeStep(w: Words, pc: Pc, o: Outcome) {
    if HoldsHooks(pc) then
      ShapeAt(w, pc) ==>
        if o.next.Some? && HoldsHooks(o.next.value) then ShapeAt(o.w, o.next.value) else o.w.live <= Subs(o.w.subCancel)
    else
      && o.w.live == w.live && o.w.subCancel == w.subCancel
      && (o.next.Some? && HoldsHooks(o.next.value) ==> o.next.value.HooksSwap? || o.next.value.UnsubSwap?)
  }

  lemma ShapeOfStart(w: Words, t: Tid, pc: Pc, ok: bool)
    requires InStart(pc)
    ensures ShapeStep(w, pc, StepStart(w, t, pc, ok))
  {}

  lemma ShapeOfLaunch(w: Words, t: Tid, pc: Pc, ok: bool)
    requires InLaunch(pc)
    ensures ShapeStep(w, pc, StepLaunch(w, pc, ok))
  {}

  lemma ShapeOfHooks(w: Words, t: Tid, pc: Pc, ok: bool)
    requires InHooks(pc)
    ensures ShapeStep(w, pc, StepHooks(w, t, pc, ok))
  {}

  lemma ShapeOfStop(w: Words, t: Tid, pc: Pc, ok: bool)
    requires InStop(pc)
    ensures ShapeStep(w, pc, StepStop(w, pc))
  {}

  lemma ShapeOfTail(w: Words, t: Tid, pc: Pc, ok: bool)
    requires InTail(pc)
    ensures ShapeStep(w, pc, StepTail(w, t, pc))
  {}

  lemma ShapeOf(w: Words, t: Tid, pc: Pc, ok: bool)
    ensures ShapeStep(w, pc, Act(w, t, pc, ok))
  {
    if InLaunch(pc) { ShapeOfLaunch(w, t, pc, ok); }
    else if InHooks(pc) { ShapeOfHooks(w, t, pc, ok); }
    else if InStop(pc) { ShapeOfStop(w, t, pc, ok); }
    else if InTail(pc) { ShapeOfTail(w, t, pc, ok); }
    else { ShapeOfStart(w, t, pc, ok); }
  }

  lemma ShapeKept(s: Sys, a: Step)
    requires Enabled(s, a) && InvLocks(s) && InvShape(s)
    ensures InvShape(Do(s, a))
  {
    if a.Move? {
      ShapeOf(s.w, a.t, s.threads[a.t], a.ok);
      LocksOf(s.w, a.t, s.threads[a.t], a.ok);
      assert HasHooksMu(s, a.t) == HoldsHooks(s.threads[a.t]);
    }
  }

  // ---- subscriptions: whose they are ----

  predicate IsOwing(s: Sys, t: Tid) { t in s.threads && OwesUnsubscribe(s.threads[t]) }

  /** Some call has committed its Stop or Destroy CAS and has yet to take the subscription away. */
  ghost predicate SomeOwes(s: Sys) { exists t: Tid :: IsOwing(s, t) }

  /** The holder of hooksMu is about to cancel instance i's subscription. */
  predicate BeingCancelled(s: Sys, i: Inst) {
    s.w.hooksMu.Some? && s.w.hooksMu.value in s.threads && Cancelling(s.threads[s.w.hooksMu.value]) == Some(i)
  }

  /** The instance of a start that has not reached Running: it has no subscription yet. */
  function Fresh(pc: Pc): Option<Inst> {
    match pc
    case StoreSlot(_, i) => Some(i)
    case CasRunning(_, i) => Some(i)
    case FailSwap(_, i) => Some(i)
    case _ => None
  }

  ghost predicate InvHooks(s: Sys) {
    && (forall i: Inst :: i in s.w.live ==> s.w.running == Some(i) || SomeOwes(s) || BeingCancelled(s, i))
    && (forall t: Tid, i: Inst :: t in s.threads && Installing(s.threads[t]) == Some(i) ==>
          i < s.w.made && (s.w.running == Some(i) || SomeOwes(s)))
    && (forall t: Tid, i: Inst :: t in s.threads && Fresh(s.threads[t]) == Some(i) ==> i !in s.w.live)
    && (forall i: Inst :: i in s.w.live ==> i < s.w.made)
  }

  predicate HooksStep(w: Words, pc: Pc, o: Outcome) {
    && o.w.live <= w.live + Subs(Installing(pc))
    && (o.w.running == w.running
        || (pc.Detach? && o.next.Some? && o.next.value.UnsubLock?)
        || (pc.FailSwap? && o.w.running == None)
        || (pc.StoreSlot? && o.w.running == Some(pc.inst)))
    && (OwesUnsubscribe(pc) ==> (o.next.Some? && OwesUnsubscribe(o.next.value)) || pc.UnsubSwap?)
    && (pc.UnsubSwap? ==> o.next.Some? && Cancelling(o.next.value) == w.subCancel && o.w.hooksMu == w.hooksMu)
    && (Cancelling(pc).Some? ==> o.w.live == w.live - {Cancelling(pc).value})
    && (o.next.Some? && Fresh(o.next.value).Some? ==>
          Fresh(pc) == Fresh(o.next.value) || (pc.Launch? && Fresh(o.next.value) == Some(w.made)))
    && (Fresh(pc).Some? ==> HoldsStart(pc))
    && (Installing(pc).Some? ==> HoldsStart(pc) && HoldsHooks(pc))
    && (o.next.Some? && Installing(o.next.value).Some? ==>
          && o.w.running == w.running && !OwesUnsubscribe(pc)
          && (Installing(pc) == Installing(o.next.value)
              || (pc.HooksCheck? && w.running == Installing(o.next.value))))
    && o.w.made >= w.made
  }

  lemma HooksOfStart(w: Words, t: Tid, pc: Pc, ok: bool)
    requires InStart(pc)
    ensures HooksStep(w, pc, StepStart(w, t, pc, ok))
  {}

  lemma HooksOfLaunch(w: Words, t: Tid, pc: Pc, ok: bool)
    requires InLaunch(pc)
    ensures HooksStep(w, pc, StepLaunch(w, pc, ok))
  {}

  lemma HooksOfHooks(w: Words, t: Tid, pc: Pc, ok: bool)
    requires InHooks(pc)
    ensures HooksStep(w, pc, StepHooks(w, t, pc, ok))
  {}

  lemma HooksOfStop(w: Words, t: Tid, pc: Pc, ok: bool)
    requires InStop(pc)
    ensures HooksStep(w, pc, StepStop(w, pc))
  {}

  lemma HooksOfTail(w: Words, t: Tid, pc: Pc, ok: bool)
    requires InTail(pc)
    ensures HooksStep(w, pc, StepTail(w, t, pc))
  {}

  lemma HooksOf(w: Words, t: Tid, pc: Pc, ok: bool)
    ensures HooksStep(w, pc, Act(w, t, pc, ok))
  {
    if InLaunch(pc) { HooksOfLaunch(w, t, pc, ok); }
    else if InHooks(pc) { HooksOfHooks(w, t, pc, ok); }
    else if InStop(pc) { HooksOfStop(w, t, pc, ok); }
    else if InTail(pc) { HooksOfTail(w, t, pc, ok); }
    else { HooksOfStart(w, t, pc, ok); }
  }

  lemma OwingAfter(s: Sys, a: Step)
    requires Enabled(s, a) && a.Move? && SomeOwes(s)
    ensures SomeOwes(Do(s, a)) || s.threads[a.t].UnsubSwap?
  {
    HooksOf(s.w, a.t, s.threads[a.t], a.ok);
    var u: Tid :| IsOwing(s, u);
    assert u != a.t || !s.threads[a.t].UnsubSwap? ==> IsOwing(Do(s, a), u);
  }

  /** When the slot lets go of an instance that may have a subscription, some call still owes an unsubscribe. */
  lemma SlotLetsGo(s: Sys, a: Step, i: Inst)
    requires Enabled(s, a) && a.Move? && InvLocks(s) && InvStarting(s) && InvSlot(s)
    requires s.w.running == Some(i) && Do(s, a).w.running != Some(i)
    ensures SomeOwes(Do(s, a)) || Fresh(s.threads[a.t]) == Some(i)
  {
    var pc := s.threads[a.t];
    HooksOf(s.w, a.t, pc, a.ok);
    assert HasStartMu(s, a.t) == HoldsStart(pc);
    if pc.Detach? {
      assert IsOwing(Do(s, a), a.t);
    } else if pc.StoreSlot? {
      var u: Tid :| IsPending(s, u);
      assert IsOwing(Do(s, a), u);
    }
  }

  lemma LiveKept(s: Sys, a: Step, i: Inst)
    requires Enabled(s, a) && a.Move?
    requires InvLocks(s) && InvStarting(s) && InvSlot(s) && InvShape(s) && InvHooks(s)
    requires i in Do(s, a).w.live
    ensures var n := Do(s, a); n.w.running == Some(i) || SomeOwes(n) || BeingCancelled(n, i)
  {
    hide Act;
    var pc := s.threads[a.t];
    var n := Do(s, a);
    HooksOf(s.w, a.t, pc, a.ok);
    LocksOf(s.w, a.t, pc, a.ok);
    assert HasHooksMu(s, a.t) == HoldsHooks(pc);
    if s.w.running == Some(i) && n.w.running != Some(i) {
      SlotLetsGo(s, a, i);
    } else if SomeOwes(s) {
      OwingAfter(s, a);
    }
  }

  lemma InstallingKept(s: Sys, a: Step, t: Tid, i: Inst)
    requires Enabled(s, a) && a.Move?
    requires InvLocks(s) && InvStarting(s) && InvSlot(s) && InvHooks(s)
    requires s.w.running.Some? ==> s.w.running.value < s.w.made
    requires t in Do(s, a).threads && Installing(Do(s, a).threads[t]) == Some(i)
    ensures var n := Do(s, a); i < n.w.made && (n.w.running == Some(i) || SomeOwes(n))
  {
    var pc := s.threads[a.t];
    var n := Do(s, a);
    HooksOf(s.w, a.t, pc, a.ok);
    assert HasStartMu(s, a.t) == HoldsStart(pc) && HasHooksMu(s, a.t) == HoldsHooks(pc);
    if t != a.t {
      HooksOf(s.w, t, s.threads[t], a.ok);
      assert HasStartMu(s, t) && HasHooksMu(s, t);
    }
    if s.w.running == Some(i) && n.w.running != Some(i) { SlotLetsGo(s, a, i); }
    else if SomeOwes(s) { OwingAfter(s, a); }
  }

  lemma FreshKept(s: Sys, a: Step, t: Tid, i: Inst)
    requires Enabled(s, a) && a.Move? && InvLocks(s) && InvHooks(s)
    requires t in Do(s, a).threads && Fresh(Do(s, a).threads[t]) == Some(i)
    ensures i !in Do(s, a).w.live
  {
    var pc := s.threads[a.t];
    HooksOf(s.w, a.t, pc, a.ok);
    assert HasStartMu(s, a.t) == HoldsStart(pc);
    if t != a.t {
      HooksOf(s.w, t, s.threads[t], a.ok);
      assert HasStartMu(s, t);
    }
  }

  lemma MoveKeepsHooks(s: Sys, a: Step)
    requires Enabled(s, a) && a.Move?
    requires InvLocks(s) && InvStarting(s) && InvInstances(s) && InvSlot(s) && InvShape(s) && InvHooks(s)
    ensures InvHooks(Do(s, a))
  {
    hide Act, InvShape, InvSlot, InvStarting, InvLocks;
    var n := Do(s, a);
    HooksOf(s.w, a.t, s.threads[a.t], a.ok);
    forall i: Inst | i in n.w.live ensures n.w.running == Some(i) || SomeOwes(n) || BeingCancelled(n, i) {
      LiveKept(s, a, i);
    }
    forall t: Tid, i: Inst | t in n.threads && Installing(n.threads[t]) == Some(i)
      ensures i < n.w.made && (n.w.running == Some(i) || SomeOwes(n))
    {
      InstallingKept(s, a, t, i);
    }
    forall t: Tid, i: Inst | t in n.threads && Fresh(n.threads[t]) == Some(i) ensures i !in n.w.live {
      FreshKept(s, a, t, i);
    }
  }

  lemma HooksKept(s: Sys, a: Step)
    requires Enabled(s, a)
    requires InvLocks(s) && InvStarting(s) && InvInstances(s) && InvSlot(s) && InvShape(s) && InvHooks(s)
    ensures InvHooks(Do(s, a))
  {
    hide InvHooks, InvLocks, InvStarting, InvInstances, InvSlot, InvShape;
    if a.Move? { MoveKeepsHooks(s, a); } else { OthersKeepHooks(s, a); }
  }

  lemma OthersKeepHooks(s: Sys, a: Step)
    requires Enabled(s, a) && !a.Move? && InvHooks(s)
    ensures InvHooks(Do(s, a))
  {
    hide Installing, Fresh, OwesUnsubscribe, Cancelling;
    var n := Do(s, a);
    if SomeOwes(s) {
      var u: Tid :| IsOwing(s, u);
      assert IsOwing(n, u);
    }
    if a.Call? { EntryHasNothing(a.entry); }
    forall i: Inst | BeingCancelled(s, i) ensures BeingCancelled(n, i) {}
  }

  lemma EntryHasNothing(pc: Pc)
    requires pc in {StartSeq, StopLoad(Host), DestroyLoad}
    ensures Installing(pc) == None && Fresh(pc) == None
  {}

  // ---- runs in which no start overtakes a pending stop ----

  /** The step is not a start entering Starting while a Stop or Destroy that has committed its CAS has yet to
      swap the slot. */
  ghost predicate Orderly(s: Sys, a: Step) {
    a.Move? && a.t in s.threads && s.threads[a.t].StartCas? && s.w.state == Initialized ==> !SomePending(s)
  }

  /** What holds as long as every step is Orderly. */
  ghost predicate InvOrderly(s: Sys) {
    && (s.w.state in {Starting, Running} ==> !SomePending(s))
    && (s.w.state == Running ==> s.w.running.Some?)
    && (forall t: Tid :: t in s.threads && (s.threads[t].Launch? || s.threads[t].StoreSlot?) ==> s.w.running == None)
    && (s.w.state == Starting ==>
          forall t: Tid :: t in s.threads && s.threads[t].CasRunning? ==> s.w.running == Some(s.threads[t].inst))
    && s.w.lost == {}
  }

  predicate OrderlyStep(w: Words, pc: Pc, o: Outcome) {
    var next := o.next;
    && (o.w.lost != w.lost ==> pc.StoreSlot? && w.running.Some?)
    && (next.Some? && next.value.Detach? ==> o.w.state !in {Starting, Running})
    && (o.w.state == Starting ==> w.state == Starting || (pc.StartCas? && w.state == Initialized))
    && (o.w.state == Running ==> w.state == Running || (pc.CasRunning? && w.state == Starting
                                                        && o.w.running == w.running))
    && (o.w.running == w.running || pc.Detach? || pc.FailSwap? || pc.StoreSlot?)
    && (next.Some? && (next.value.Launch? || next.value.StoreSlot?) ==>
          o.w.running == w.running && (pc.Launch? || (pc.StartCas? && w.state == Initialized)))
    && (next.Some? && next.value.CasRunning? ==> pc.StoreSlot? && o.w.running == Some(next.value.inst))
    && (pc.Launch? || pc.StoreSlot? || pc.CasRunning? || pc.FailSwap? || pc.StartCas? ==> HoldsStart(pc))
  }

  lemma OrderlyOfStart(w: Words, t: Tid, pc: Pc, ok: bool)
    requires InStart(pc)
    ensures OrderlyStep(w, pc, StepStart(w, t, pc, ok))
  {}

  lemma OrderlyOfLaunch(w: Words, t: Tid, pc: Pc, ok: bool)
    requires InLaunch(pc)
    ensures OrderlyStep(w, pc, StepLaunch(w, pc, ok))
  {}

  lemma OrderlyOfHooks(w: Words, t: Tid, pc: Pc, ok: bool)
    requires InHooks(pc)
    ensures OrderlyStep(w, pc, StepHooks(w, t, pc, ok))
  {}

  lemma OrderlyOfStop(w: Words, t: Tid, pc: Pc, ok: bool)
    requires InStop(pc)
    ensures OrderlyStep(w, pc, StepStop(w, pc))
  {}

  lemma OrderlyOfTail(w: Words, t: Tid, pc: Pc, ok: bool)
    requires InTail(pc)
    ensures OrderlyStep(w, pc, StepTail(w, t, pc))
  {}

  lemma OrderlyOf(w: Words, t: Tid, pc: Pc, ok: bool)
    ensures OrderlyStep(w, pc, Act(w, t, pc, ok))
  {
    if InLaunch(pc) { OrderlyOfLaunch(w, t, pc, ok); }
    else if InHooks(pc) { OrderlyOfHooks(w, t, pc, ok); }
    else if InStop(pc) { OrderlyOfStop(w, t, pc, ok); }
    else if InTail(pc) { OrderlyOfTail(w, t, pc, ok); }
    else { OrderlyOfStart(w, t, pc, ok); }
  }

  lemma OrderlyKept(s: Sys, a: Step)
    requires Enabled(s, a) && Orderly(s, a)
    requires InvLocks(s) && InvStarting(s) && InvSlot(s) && InvOrderly(s)
    ensures InvOrderly(Do(s, a))
  {
    var n := Do(s, a);
    if a.Move? {
      var pc := s.threads[a.t];
      OrderlyOf(s.w, a.t, pc, a.ok);
      assert HasStartMu(s, a.t) == HoldsStart(pc);
      assert pc.Detach? ==> IsPending(s, a.t);
      forall u: Tid | IsPending(n, u) ensures n.w.state !in {Starting, Running} {
        assert u != a.t ==> IsPending(s, u);
      }
      forall u: Tid | u in n.threads && (n.threads[u].Launch? || n.threads[u].StoreSlot?) ensures n.w.running == None {
        if u != a.t {
          OrderlyOf(s.w, u, s.threads[u], a.ok);
          assert HasStartMu(s, u);
        }
      }
      forall u: Tid | n.w.state == Starting && u in n.threads && n.threads[u].CasRunning?
        ensures n.w.running == Some(n.threads[u].inst)
      {
        if u != a.t {
          OrderlyOf(s.w, u, s.threads[u], a.ok);
          assert HasStartMu(s, u);
        }
      }
    } else {
      assert forall u: Tid :: IsPending(n, u) ==> IsPending(s, u);
    }
  }

  // ---- all of them, along any run ----

  ghost predicate Inv(s: Sys) {
    && InvLocks(s) && InvStarting(s) && InvSeq(s) && InvInstances(s) && InvSlot(s) && InvShape(s) && InvHooks(s)
  }

  lemma InvKept(s: Sys, a: Step)
    requires Enabled(s, a) && Inv(s)
    ensures Inv(Do(s, a))
  {
    LocksKept(s, a);
    StartingKept(s, a);
    SeqKept(s, a);
    InstancesKept(s, a);
    SlotKept(s, a);
    ShapeKept(s, a);
    HooksKept(s, a);
  }

  lemma {:induction false} InvAlong(s: Sys, steps: seq<Step>)
    requires Inv(s) && Runnable(s, steps)
    ensures Inv(After(s, steps))
    decreases |steps|
  {
    if steps != [] {
      InvKept(s, steps[0]);
      InvAlong(Do(s, steps[0]), steps[1..]);
    }
  }

  lemma InvOfNew()
    ensures Inv(NEW_SERVICE) && InvOrderly(NEW_SERVICE)
  {}
}
