/** The service object itself, in the source's form: CAS retry loops, a Store, swaps, two mutexes. Between any two
    atomic operations every other call may act (Yield). Each method follows the machine one operation at a time, so
    whatever it does, under any interference, is a run of module Initialization, and every theorem about those holds of
    the object. */
module ServiceObject {
  import opened Basics
  import opened ServiceProtocol
  import I = Initialization

  /** The trace is a run of the machine and leads to `sys`, with those calls of InitContext past their CAS. */
  ghost predicate Recorded(trace: seq<I.Event>, sys: Sys, inits: set<Tid>) { I.Ends(trace) == Some(I.Run(sys, inits)) }

  /** An InitContext has failed between the two. */
  ghost predicate FailsSince(before: seq<I.Event>, after: seq<I.Event>) {
    exists k :: |before| <= k < |after| && after[k].Failed?
  }

  lemma {:induction false} StaysDestroyed(one: seq<I.Event>, all: seq<I.Event>)
    requires I.Ends(one).Some? && I.Ends(all).Some? && one <= all && I.Ends(one).value.s.w.state == Destroyed
    ensures I.Ends(all).value.s.w.state == Destroyed || FailsSince(one, all)
    decreases |all|
  {
    hide I.Next, I.Can;
    if |one| == |all| {
      assert one == all;
    } else {
      var n := |all| - 1;
      var before := all[..n];
      StaysDestroyed(one, before);
      if FailsSince(one, before) {
        var k :| |one| <= k < n && before[k].Failed?;
        assert all[k].Failed?;
      } else {
        I.EdgesExactly(before, all[n]);
        assert all[n].Failed? ==> FailsSince(one, all);
      }
    }
  }

  class Service {
    var state: State
    var running: Option<Inst>
    var startSeq: nat
    var startMu: bool
    var hooksMu: bool
    var subCancel: Option<Inst>
    var live: set<Inst>
    /** How many instances have been created: the name of the next one. */
    var made: nat
    /** The run of the machine so far, the state it has reached, and the calls of InitContext past their CAS. */
    ghost var trace: seq<I.Event>
    ghost var sys: Sys
    ghost var inits: set<Tid>

    ghost predicate Valid()
      reads this
    {
      && Recorded(trace, sys, inits)
      && state == sys.w.state && running == sys.w.running && startSeq == sys.w.startSeq
      && startMu == sys.w.startMu.Some? && hooksMu == sys.w.hooksMu.Some?
      && subCancel == sys.w.subCancel && live == sys.w.live && made == sys.w.made
    }

    /** The call stands at `pc`. */
    ghost predicate Stands(me: Tid, pc: Pc)
      reads this`sys
    {
      me in sys.threads && sys.threads[me] == pc
    }

    /** The body of Stop is over: a host's call has returned, a start's goes on. */
    ghost predicate Returned(me: Tid, caller: Caller)
      reads this`sys
    {
      if caller.Host? then me !in sys.threads else Stands(me, StartCas(caller.my))
    }

    constructor ()
      ensures Valid() && trace == []
    {
      state, running, startSeq, startMu, hooksMu := Created, None, 0, false, false;
      subCancel, live, made, trace, sys, inits := None, {}, 0, [], NEW_SERVICE, {};
    }

    /** Something happens. */
    ghost method Note(e: I.Event)
      requires Recorded(trace, sys, inits) && I.Can(I.Run(sys, inits), e)
      modifies this`trace, this`sys, this`inits
      ensures trace == old(trace) + [e] && Recorded(trace, sys, inits)
              && I.Run(sys, inits) == I.Next(I.Run(old(sys), old(inits)), e)
    {
      var n := I.Next(I.Run(sys, inits), e);
      assert (trace + [e])[..|trace|] == trace;
      trace, sys, inits := trace + [e], n.s, n.inits;
    }

    /** A call of start, Stop or Destroy takes its next step. */
    ghost method Record(a: Step)
      requires Recorded(trace, sys, inits) && !a.InitContext? && Enabled(sys, a)
      modifies this`trace, this`sys, this`inits
      ensures trace == old(trace) + [I.Plain(a)] && Recorded(trace, sys, inits) && sys == Do(old(sys), a)
    {
      Note(I.Plain(a));
    }

    /** Any other calls act, as the machine lets them; `me` stays where it stands. */
    method Yield(ghost me: Tid)
      requires Valid() && me in sys.threads
      modifies this
      ensures Valid() && old(trace) <= trace && Stands(me, old(sys.threads[me]))
    {
    }

    method YieldInit(ghost me: Tid)
      requires Valid() && me in inits
      modifies this
      ensures Valid() && old(trace) <= trace && me in inits
    {
    }

    /** InitContext: out of Created by a CAS, and back by a plain Store when the options are bad, whatever the other
        calls have done in between. */
    method InitContext(ghost me: Tid, optionsOk: bool) returns (err: bool)
      requires Valid() && me !in inits
      modifies this
      ensures Valid() && old(trace) <= trace
      ensures err <==> old(state) != Created || !optionsOk
      ensures if old(state) != Created then trace == old(trace) && state == old(state)
              else |old(trace)| < |trace| && trace[|old(trace)|] == I.Entered(me)
                   && trace[|trace| - 1] == if optionsOk then I.Succeeded(me) else I.Failed(me)
      ensures old(state) == Created && !optionsOk ==> state == Created
    {
      if state != Created { return true; }
      state := Initialized;
      Note(I.Entered(me));
      YieldInit(me);
      if !optionsOk {
        state := Created;
        Note(I.Failed(me));
        return true;
      }
      Note(I.Succeeded(me));
      return false;
    }

    // ---- the atomic operations ----

    method LoadForStop(ghost me: Tid, ghost caller: Caller) returns (st: State)
      requires Valid() && Stands(me, StopLoad(caller))
      modifies this
      ensures Valid() && old(trace) <= trace
      ensures if st in {Running, Starting} then Stands(me, StopCas(caller, st)) else Returned(me, caller)
    {
      Yield(me);
      st := state;
      Record(Move(me, true));
    }

    method CasInitialized(ghost me: Tid, ghost caller: Caller, st: State) returns (swapped: bool)
      requires Valid() && Stands(me, StopCas(caller, st))
      modifies this
      ensures Valid() && old(trace) <= trace
      ensures Stands(me, if swapped then Detach(caller) else StopLoad(caller))
    {
      Yield(me);
      swapped := state == st;
      if swapped { state := Initialized; }
      Record(Move(me, true));
    }

    method LoadForDestroy(ghost me: Tid) returns (st: State)
      requires Valid() && Stands(me, DestroyLoad)
      modifies this
      ensures Valid() && old(trace) <= trace
      ensures st == Destroyed ==> me !in sys.threads && state == Destroyed
      ensures st != Destroyed ==> Stands(me, DestroyCas(st))
    {
      Yield(me);
      st := state;
      Record(Move(me, true));
    }

    method CasDestroyed(ghost me: Tid, st: State) returns (swapped: bool)
      requires Valid() && Stands(me, DestroyCas(st))
      modifies this
      ensures Valid() && old(trace) <= trace
      ensures Stands(me, if swapped then Detach(Host) else DestroyLoad)
      ensures swapped ==> state == Destroyed
    {
      Yield(me);
      swapped := state == st;
      if swapped { state := Destroyed; }
      Record(Move(me, true));
    }

    method SwapSlot(ghost me: Tid, ghost caller: Caller) returns (prev: Option<Inst>)
      requires Valid() && Stands(me, Detach(caller))
      modifies this
      ensures Valid() && old(trace) <= trace
      ensures Stands(me, UnsubLock(caller, prev))
    {
      Yield(me);
      prev := running;
      running := None;
      Record(Move(me, true));
    }

    method SwapSubscription(ghost me: Tid, ghost caller: Caller, ghost prev: Option<Inst>) returns (sub: Option<Inst>)
      requires Valid() && Stands(me, UnsubSwap(caller, prev))
      modifies this
      ensures Valid() && old(trace) <= trace
      ensures Stands(me, UnsubCancel(caller, prev, sub))
    {
      Yield(me);
      sub := subCancel;
      subCancel := None;
      Record(Move(me, true));
    }

    method CancelSubscription(ghost me: Tid, ghost caller: Caller, ghost prev: Option<Inst>, sub: Option<Inst>)
      requires Valid() && Stands(me, UnsubCancel(caller, prev, sub))
      modifies this
      ensures Valid() && old(trace) <= trace
      ensures Stands(me, UnsubUnlock(caller, prev))
    {
      Yield(me);
      live := Minus(live, sub);
      Record(Move(me, true));
    }

    method UnlockHooksAfterStop(ghost me: Tid, ghost caller: Caller, ghost prev: Option<Inst>)
      requires Valid() && Stands(me, UnsubUnlock(caller, prev))
      modifies this
      ensures Valid() && old(trace) <= trace
      ensures Stands(me, CloseOld(caller, prev))
    {
      Yield(me);
      hooksMu := false;
      Record(Move(me, true));
    }

    method CloseInstance(ghost me: Tid, ghost caller: Caller, prev: Option<Inst>)
      requires Valid() && Stands(me, CloseOld(caller, prev))
      modifies this
      ensures Valid() && old(trace) <= trace
      ensures Returned(me, caller)
    {
      Yield(me);
      Record(Move(me, true));
    }

    method TakeNumber(ghost me: Tid) returns (mySeq: nat)
      requires Valid() && Stands(me, StartSeq)
      modifies this
      ensures Valid() && old(trace) <= trace
      ensures Stands(me, StartLock(mySeq))
    {
      Yield(me);
      startSeq := startSeq + 1;
      mySeq := startSeq;
      Record(Move(me, true));
    }

    method IsNewest(ghost me: Tid, mySeq: nat) returns (newest: bool)
      requires Valid() && Stands(me, StartCheck(mySeq))
      modifies this
      ensures Valid() && old(trace) <= trace
      ensures Stands(me, if newest then StopLoad(ByStart(mySeq)) else StartUnlock(mySeq))
    {
      Yield(me);
      newest := startSeq == mySeq;
      Record(Move(me, true));
    }

    method CasStarting(ghost me: Tid, ghost my: nat) returns (swapped: bool)
      requires Valid() && Stands(me, StartCas(my))
      modifies this
      ensures Valid() && old(trace) <= trace
      ensures Stands(me, if swapped then Launch(my) else StartUnlock(my))
    {
      Yield(me);
      swapped := state == Initialized;
      if swapped { state := Starting; }
      Record(Move(me, true));
    }

    /** box.New and Start: on success a new instance, named by a number no other instance has. */
    method NewInstance(ghost me: Tid, ghost my: nat, starts: bool) returns (rs: Inst)
      requires Valid() && Stands(me, Launch(my))
      modifies this
      ensures Valid() && old(trace) <= trace
      ensures Stands(me, if starts then StoreSlot(my, rs) else Rollback(my))
    {
      Yield(me);
      rs := made;
      if starts { made := made + 1; }
      Record(Move(me, starts));
    }

    method CasRollback(ghost me: Tid, ghost my: nat)
      requires Valid() && Stands(me, Rollback(my))
      modifies this
      ensures Valid() && old(trace) <= trace
      ensures Stands(me, StartUnlock(my))
    {
      Yield(me);
      if state == Starting { state := Initialized; }
      Record(Move(me, true));
    }

    method Store(ghost me: Tid, ghost my: nat, rs: Inst)
      requires Valid() && Stands(me, StoreSlot(my, rs))
      modifies this
      ensures Valid() && old(trace) <= trace
      ensures Stands(me, CasRunning(my, rs))
    {
      Yield(me);
      running := Some(rs);
      Record(Move(me, true));
    }

    method CasToRunning(ghost me: Tid, ghost my: nat, rs: Inst) returns (swapped: bool)
      requires Valid() && Stands(me, CasRunning(my, rs))
      modifies this
      ensures Valid() && old(trace) <= trace
      ensures Stands(me, if swapped then ClashLookup(my, rs) else FailSwap(my, rs))
    {
      Yield(me);
      swapped := state == Starting;
      if swapped { state := Running; }
      Record(Move(me, true));
    }

    method SwapBack(ghost me: Tid, ghost my: nat, ghost rs: Inst) returns (prev: Option<Inst>)
      requires Valid() && Stands(me, FailSwap(my, rs))
      modifies this
      ensures Valid() && old(trace) <= trace
      ensures Stands(me, FailClose(my, prev))
    {
      Yield(me);
      prev := running;
      running := None;
      Record(Move(me, true));
    }

    method CloseBack(ghost me: Tid, ghost my: nat, prev: Option<Inst>)
      requires Valid() && Stands(me, FailClose(my, prev))
      modifies this
      ensures Valid() && old(trace) <= trace
      ensures Stands(me, StartUnlock(my))
    {
      Yield(me);
      Record(Move(me, true));
    }

    method ClashServer(ghost me: Tid, ghost my: nat, ghost rs: Inst, clashApi: bool) returns (found: bool)
      requires Valid() && Stands(me, ClashLookup(my, rs))
      modifies this
      ensures Valid() && old(trace) <= trace
      ensures Stands(me, if found then HooksLock(my, rs) else StartUnlock(my))
    {
      Yield(me);
      found := running.Some? && clashApi;
      Record(Move(me, clashApi));
    }

    method SwapOlder(ghost me: Tid, ghost my: nat, ghost rs: Inst) returns (sub: Option<Inst>)
      requires Valid() && Stands(me, HooksSwap(my, rs))
      modifies this
      ensures Valid() && old(trace) <= trace
      ensures Stands(me, HooksCancel(my, rs, sub))
    {
      Yield(me);
      sub := subCancel;
      subCancel := None;
      Record(Move(me, true));
    }

    method CancelOlder(ghost me: Tid, ghost my: nat, ghost rs: Inst, sub: Option<Inst>)
      requires Valid() && Stands(me, HooksCancel(my, rs, sub))
      modifies this
      ensures Valid() && old(trace) <= trace
      ensures Stands(me, HooksCheck(my, rs))
    {
      Yield(me);
      live := Minus(live, sub);
      Record(Move(me, true));
    }

    method IsCurrent(ghost me: Tid, ghost my: nat, rs: Inst) returns (current: bool)
      requires Valid() && Stands(me, HooksCheck(my, rs))
      modifies this
      ensures Valid() && old(trace) <= trace
      ensures Stands(me, if current then HooksInstall(my, rs) else HooksUnlock(my))
    {
      Yield(me);
      current := running == Some(rs);
      Record(Move(me, true));
    }

    method Install(ghost me: Tid, ghost my: nat, rs: Inst)
      requires Valid() && Stands(me, HooksInstall(my, rs))
      modifies this
      ensures Valid() && old(trace) <= trace
      ensures Stands(me, HooksSpawn(my, rs))
    {
      Yield(me);
      subCancel := Some(rs);
      Record(Move(me, true));
    }

    method Spawn(ghost me: Tid, ghost my: nat, rs: Inst)
      requires Valid() && Stands(me, HooksSpawn(my, rs))
      modifies this
      ensures Valid() && old(trace) <= trace
      ensures Stands(me, HooksUnlock(my))
    {
      Yield(me);
      live := live + {rs};
      Record(Move(me, true));
    }

    method UnlockHooks(ghost me: Tid, ghost my: nat)
      requires Valid() && Stands(me, HooksUnlock(my))
      modifies this
      ensures Valid() && old(trace) <= trace
      ensures Stands(me, StartUnlock(my))
    {
      Yield(me);
      hooksMu := false;
      Record(Move(me, true));
    }

    method UnlockStart(ghost me: Tid, ghost my: nat)
      requires Valid() && Stands(me, StartUnlock(my))
      modifies this
      ensures Valid() && old(trace) <= trace
      ensures me !in sys.threads
    {
      Yield(me);
      startMu := false;
      Record(Move(me, true));
    }

    // ---- waiting for a mutex: `patience` bounds the tries ----

    method LockStart(ghost me: Tid, ghost my: nat, patience: nat) returns (got: bool)
      requires Valid() && Stands(me, StartLock(my))
      modifies this
      ensures Valid() && old(trace) <= trace && Stands(me, if got then StartCheck(my) else StartLock(my))
    {
      for tries := 0 to patience
        invariant Valid() && old(trace) <= trace && Stands(me, StartLock(my))
      {
        Yield(me);
        if !startMu {
          startMu := true;
          Record(Move(me, true));
          return true;
        }
      }
      return false;
    }

    method LockHooks(ghost me: Tid, ghost my: nat, ghost rs: Inst, patience: nat) returns (got: bool)
      requires Valid() && Stands(me, HooksLock(my, rs))
      modifies this
      ensures Valid() && old(trace) <= trace && Stands(me, if got then HooksSwap(my, rs) else HooksLock(my, rs))
    {
      for tries := 0 to patience
        invariant Valid() && old(trace) <= trace && Stands(me, HooksLock(my, rs))
      {
        Yield(me);
        if !hooksMu {
          hooksMu := true;
          Record(Move(me, true));
          return true;
        }
      }
      return false;
    }

    method LockHooksForStop(ghost me: Tid, ghost caller: Caller, ghost prev: Option<Inst>, patience: nat)
      returns (got: bool)
      requires Valid() && Stands(me, UnsubLock(caller, prev))
      modifies this
      ensures Valid() && old(trace) <= trace
      ensures Stands(me, if got then UnsubSwap(caller, prev) else UnsubLock(caller, prev))
    {
      for tries := 0 to patience
        invariant Valid() && old(trace) <= trace && Stands(me, UnsubLock(caller, prev))
      {
        Yield(me);
        if !hooksMu {
          hooksMu := true;
          Record(Move(me, true));
          return true;
        }
      }
      return false;
    }

    // ---- the calls: done is false while the call still retries or waits ----

    /** unsubscribeHooks: under hooksMu, take the subscription out and cancel it. */
    method UnsubscribeHooks(ghost me: Tid, ghost caller: Caller, ghost prev: Option<Inst>, patience: nat)
      returns (done: bool)
      requires Valid() && Stands(me, UnsubLock(caller, prev))
      modifies this
      ensures Valid() && old(trace) <= trace && me in sys.threads
      ensures done ==> Stands(me, CloseOld(caller, prev))
    {
      done := LockHooksForStop(me, caller, prev, patience);
      if done {
        var sub := SwapSubscription(me, caller, prev);
        CancelSubscription(me, caller, prev, sub);
        UnlockHooksAfterStop(me, caller, prev);
      }
    }

    /** The tail of Stop and Destroy: detach first, so that the generation check of a concurrent start can see it;
        then unsubscribe; then close what the swap returned. */
    method DetachAndClose(ghost me: Tid, ghost caller: Caller, patience: nat) returns (done: bool)
      requires Valid() && Stands(me, Detach(caller))
      modifies this
      ensures Valid() && old(trace) <= trace
      ensures if done then Returned(me, caller) else me in sys.threads
    {
      hide Do, Enabled, Recorded, Service.Valid;
      var prev := SwapSlot(me, caller);
      done := UnsubscribeHooks(me, caller, prev, patience);
      if done { CloseInstance(me, caller, prev); }
    }

    /** One round of Stop's retry loop: load, and CAS what was loaded to Initialized. */
    method StopRound(ghost me: Tid, ghost caller: Caller) returns (idle: bool, swapped: bool)
      requires Valid() && Stands(me, StopLoad(caller))
      modifies this
      ensures Valid() && old(trace) <= trace
      ensures if idle then Returned(me, caller) else Stands(me, if swapped then Detach(caller) else StopLoad(caller))
    {
      var st := LoadForStop(me, caller);
      idle, swapped := st != Running && st != Starting, false;
      if !idle { swapped := CasInitialized(me, caller, st); }
    }

    /** Stop takes no start lock. */
    method Stop(ghost me: Tid, ghost caller: Caller, patience: nat) returns (done: bool)
      requires Valid() && Stands(me, StopLoad(caller))
      modifies this
      ensures Valid() && old(trace) <= trace
      ensures if done then Returned(me, caller) else me in sys.threads
    {
      hide Do, Enabled, Recorded, Service.Valid;
      var idle, swapped := false, false;
      for tries := 0 to patience
        invariant Valid() && old(trace) <= trace && Stands(me, StopLoad(caller))
      {
        idle, swapped := StopRound(me, caller);
        if idle { return true; }
        if swapped { break; }
      }
      if swapped { done := DetachAndClose(me, caller, patience); } else { done := false; }
    }

    /** One round of Destroy's retry loop. */
    method DestroyRound(ghost me: Tid) returns (idle: bool, swapped: bool)
      requires Valid() && Stands(me, DestroyLoad)
      modifies this
      ensures Valid() && old(trace) <= trace
      ensures idle || swapped ==> state == Destroyed
      ensures if idle then me !in sys.threads else Stands(me, if swapped then Detach(Host) else DestroyLoad)
    {
      var st := LoadForDestroy(me);
      idle, swapped := st == Destroyed, false;
      if !idle { swapped := CasDestroyed(me, st); }
    }

    /** The end of Destroy; a service it has destroyed stays destroyed, whoever else acts, unless an InitContext
        fails. */
    method DestroyTail(ghost me: Tid, patience: nat) returns (done: bool)
      requires Valid() && Stands(me, Detach(Host)) && state == Destroyed
      modifies this
      ensures Valid() && old(trace) <= trace && (state == Destroyed || FailsSince(old(trace), trace))
      ensures done <==> me !in sys.threads
    {
      done := DetachAndClose(me, Host, patience);
      StaysDestroyed(old(trace), trace);
    }

    method Destroy(ghost me: Tid, patience: nat) returns (done: bool)
      requires Valid() && Stands(me, DestroyLoad)
      modifies this
      ensures Valid() && old(trace) <= trace
      ensures if done then me !in sys.threads && (state == Destroyed || FailsSince(old(trace), trace))
              else me in sys.threads
    {
      hide Do, Enabled, Recorded;
      var idle, swapped := false, false;
      for tries := 0 to patience
        invariant Valid() && old(trace) <= trace && Stands(me, DestroyLoad)
      {
        idle, swapped := DestroyRound(me);
        if idle { return true; }
        if swapped { break; }
      }
      if swapped { done := DestroyTail(me, patience); } else { done := false; }
    }

    /** cancelHooksLocked on behalf of a start. */
    method CancelOlderHooks(ghost me: Tid, ghost my: nat, ghost rs: Inst)
      requires Valid() && Stands(me, HooksSwap(my, rs))
      modifies this
      ensures Valid() && old(trace) <= trace && Stands(me, HooksCheck(my, rs))
    {
      var sub := SwapOlder(me, my, rs);
      CancelOlder(me, my, rs, sub);
    }

    /** The generation check and the installation, under hooksMu. */
    method InstallIfCurrent(ghost me: Tid, ghost my: nat, rs: Inst)
      requires Valid() && Stands(me, HooksCheck(my, rs))
      modifies this
      ensures Valid() && old(trace) <= trace && Stands(me, HooksUnlock(my))
    {
      var current := IsCurrent(me, my, rs);
      if current {
        Install(me, my, rs);
        Spawn(me, my, rs);
      }
    }

    /** subscribeHooks for instance `rs`, just stored: under hooksMu, end the previous subscription, check that rs is
        still the one in the slot, install. */
    method SubscribeHooks(ghost me: Tid, ghost my: nat, rs: Inst, clashApi: bool, patience: nat) returns (done: bool)
      requires Valid() && Stands(me, ClashLookup(my, rs))
      modifies this
      ensures Valid() && old(trace) <= trace && me in sys.threads
      ensures done ==> Stands(me, StartUnlock(my))
    {
      hide Do, Enabled, Recorded, Service.Valid;
      var found := ClashServer(me, my, rs, clashApi);
      if !found { return true; }
      done := LockHooks(me, my, rs, patience);
      if done {
        CancelOlderHooks(me, my, rs);
        InstallIfCurrent(me, my, rs);
        UnlockHooks(me, my);
      }
    }

    /** startWithJSON and the rollback after it. `starts` says whether parsing, creating and starting the instance
        succeed. */
    method StartWithJSON(ghost me: Tid, ghost my: nat, starts: bool, clashApi: bool, patience: nat) returns (done: bool)
      requires Valid() && Stands(me, Launch(my))
      modifies this
      ensures Valid() && old(trace) <= trace && me in sys.threads
      ensures done ==> Stands(me, StartUnlock(my))
    {
      hide Do, Enabled, Recorded, Service.Valid;
      var rs := NewInstance(me, my, starts);
      if !starts {
        CasRollback(me, my);
        return true;
      }
      Store(me, my, rs);
      var swapped := CasToRunning(me, my, rs);
      if swapped {
        done := SubscribeHooks(me, my, rs, clashApi, patience);
      } else {
        var prev := SwapBack(me, my, rs);
        CloseBack(me, my, prev);
        done := true;
      }
    }

    /** What a start does as the newest holder of startMu: stop the previous instance, enter Starting, launch. */
    method Replace(ghost me: Tid, ghost my: nat, starts: bool, clashApi: bool, patience: nat) returns (done: bool)
      requires Valid() && Stands(me, StopLoad(ByStart(my)))
      modifies this
      ensures Valid() && old(trace) <= trace && me in sys.threads
      ensures done ==> Stands(me, StartUnlock(my))
    {
      hide Do, Enabled, Recorded, Service.Valid;
      done := Stop(me, ByStart(my), patience);
      if !done { return; }
      var swapped := CasStarting(me, my);
      if swapped { done := StartWithJSON(me, my, starts, clashApi, patience); }
    }

    /** A start whose translation fails returns without having touched anything. */
    method FailTranslation(ghost me: Tid)
      requires Valid() && Stands(me, StartSeq)
      modifies this
      ensures Valid() && old(trace) <= trace && me !in sys.threads
    {
      Record(Move(me, false));
    }

    /** A start that holds startMu: skip if a newer one was issued, otherwise replace; then unlock. */
    method StartLocked(ghost me: Tid, mySeq: nat, starts: bool, clashApi: bool, patience: nat) returns (done: bool)
      requires Valid() && Stands(me, StartCheck(mySeq))
      modifies this
      ensures Valid() && old(trace) <= trace
      ensures done <==> me !in sys.threads
    {
      hide Do, Enabled, Recorded, Service.Valid;
      var newest := IsNewest(me, mySeq);
      if newest {
        done := Replace(me, mySeq, starts, clashApi, patience);
        if !done { return; }
      }
      UnlockStart(me, mySeq);
      done := true;
    }

    /** StartWithContent. `translates` says whether the translation succeeds. */
    method StartWithContent(ghost me: Tid, translates: bool, starts: bool, clashApi: bool, patience: nat)
      returns (done: bool)
      requires Valid() && Stands(me, StartSeq)
      modifies this
      ensures Valid() && old(trace) <= trace
      ensures done <==> me !in sys.threads
    {
      hide Do, Enabled, Recorded, Service.Valid;
      if !translates {
        FailTranslation(me);
        return true;
      }
      var mySeq := TakeNumber(me);
      done := LockStart(me, mySeq, patience);
      if done { done := StartLocked(me, mySeq, starts, clashApi, patience); }
    }
  }
}
