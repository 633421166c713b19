/** The service lifecycle as an interleaving of atomic operations.

    Any number of calls of StartWithContent, Stop and Destroy are in flight at once. Each call is a
    program counter with its locals; one step of the machine is one atomic operation of one call (a CAS,
    a Store, a Swap, a lock or unlock, a Close). `threads` holds exactly the calls in flight, so an empty
    map is a quiescent service. A host callback that calls Stop while its own start is paused in
    casState holds no lock that Stop needs, so it is one more call in flight. */
module ServiceProtocol {
  import opened Basics

  type Tid = nat
  type Inst = nat

  datatype State = Created | Initialized | Starting | Running | Destroyed

  /** Who runs the body of Stop: a host call (or Destroy, which shares the tail), or a start that first
      stops the previous instance. */
  datatype Caller = Host | ByStart(my: nat)

  /** The next atomic operation of a call, with the locals it still needs. */
  datatype Pc =
    // StartWithContent
    | StartSeq
    | StartLock(my: nat)
    | StartCheck(my: nat)
    | StartCas(my: nat)
    | Launch(my: nat)
    | Rollback(my: nat)
    | StoreSlot(my: nat, inst: Inst)
    | CasRunning(my: nat, inst: Inst)
    | FailSwap(my: nat, inst: Inst)
    | FailClose(my: nat, prev: Option<Inst>)
    | StartUnlock(my: nat)
    // subscribeHooks
    | ClashLookup(my: nat, inst: Inst)
    | HooksLock(my: nat, inst: Inst)
    | HooksSwap(my: nat, inst: Inst)
    | HooksCancel(my: nat, inst: Inst, sub: Option<Inst>)
    | HooksCheck(my: nat, inst: Inst)
    | HooksInstall(my: nat, inst: Inst)
    | HooksSpawn(my: nat, inst: Inst)
    | HooksUnlock(my: nat)
    // Stop
    | StopLoad(caller: Caller)
    | StopCas(caller: Caller, seen: State)
    // Destroy
    | DestroyLoad
    | DestroyCas(seen: State)
    // the tail Stop and Destroy share: detach the instance, unsubscribe, close
    | Detach(caller: Caller)
    | UnsubLock(caller: Caller, prev: Option<Inst>)
    | UnsubSwap(caller: Caller, prev: Option<Inst>)
    | UnsubCancel(caller: Caller, prev: Option<Inst>, sub: Option<Inst>)
    | UnsubUnlock(caller: Caller, prev: Option<Inst>)
    | CloseOld(caller: Caller, prev: Option<Inst>)

  /** The shared words of the service and the history the properties speak of.

      running, subCancel, startSeq, startMu and hooksMu are the source's fields; `live` is the set of instances
      whose subscription goroutines run. History: `made` instances have been started (ids 0..made), `closes`
      counts the Close calls on each, `lost` were overwritten in the slot, `attempts` lists the sequence numbers
      that passed the coalescing check, `coalesced` those that did not, `starter` is the sequence number of the
      last call that moved the state to Starting. */
  datatype Words = Words(
    state: State,
    running: Option<Inst>,
    startSeq: nat,
    startMu: Option<Tid>,
    hooksMu: Option<Tid>,
    subCancel: Option<Inst>,
    live: set<Inst>,
    made: nat,
    closes: multiset<Inst>,
    lost: set<Inst>,
    attempts: seq<nat>,
    coalesced: set<nat>,
    starter: nat)

  /** What one atomic operation leaves: the words, and where the call stands (nowhere, once it has returned). */
  datatype Outcome = Outcome(w: Words, next: Option<Pc>)

  function Go(w: Words, pc: Pc): Outcome { Outcome(w, Some(pc)) }

  function Minus(live: set<Inst>, sub: Option<Inst>): set<Inst> {
    if sub.Some? then live - {sub.value} else live
  }

  function Close(w: Words, prev: Option<Inst>): Words {
    if prev.Some? then w.(closes := w.closes + multiset{prev.value}) else w
  }

  /** A call of Stop returns to its host, or to the start that made it. */
  function StopReturn(w: Words, caller: Caller): Outcome {
    match caller
    case Host => Outcome(w, None)
    case ByStart(q) => Go(w, StartCas(q))
  }

  predicate InLaunch(pc: Pc) {
    pc.Launch? || pc.Rollback? || pc.StoreSlot? || pc.CasRunning? || pc.FailSwap? || pc.FailClose?
  }

  predicate InHooks(pc: Pc) {
    pc.ClashLookup? || pc.HooksLock? || pc.HooksSwap? || pc.HooksCancel? || pc.HooksCheck? ||
    pc.HooksInstall? || pc.HooksSpawn? || pc.HooksUnlock?
  }

  predicate InStop(pc: Pc) {
    pc.StopLoad? || pc.StopCas? || pc.DestroyLoad? || pc.DestroyCas?
  }

  predicate InTail(pc: Pc) {
    pc.Detach? || pc.UnsubLock? || pc.UnsubSwap? || pc.UnsubCancel? || pc.UnsubUnlock? || pc.CloseOld?
  }

  /** StartWithContent around the launch: number the call, take startMu, coalesce, enter Starting, unlock. */
  function StepStart(w: Words, t: Tid, pc: Pc, ok: bool): Outcome {
    match pc
    case StartSeq =>
      if !ok then Outcome(w, None) else Go(w.(startSeq := w.startSeq + 1), StartLock(w.startSeq + 1))
    case StartLock(q) =>
      if w.startMu.Some? then Go(w, pc) else Go(w.(startMu := Some(t)), StartCheck(q))
    case StartCheck(q) =>
      if w.startSeq != q then Go(w.(coalesced := w.coalesced + {q}), StartUnlock(q))
      else Go(w.(attempts := w.attempts + [q]), StopLoad(ByStart(q)))
    case StartCas(q) =>
      if w.state == Initialized then Go(w.(state := Starting, starter := q), Launch(q))
      else Go(w, StartUnlock(q))
    case _ => Outcome(w.(startMu := None), None)  // StartUnlock
  }

  /** startWithJSON up to the subscription, and the rollback when it fails. */
  function StepLaunch(w: Words, pc: Pc, ok: bool): Outcome
    requires InLaunch(pc)
  {
    match pc
    case Launch(q) =>
      if ok then Go(w.(made := w.made + 1), StoreSlot(q, w.made)) else Go(w, Rollback(q))
    case Rollback(q) =>
      Go(if w.state == Starting then w.(state := Initialized) else w, StartUnlock(q))
    case StoreSlot(q, i) =>
      var over := if w.running.Some? then {w.running.value} else {};
      Go(w.(running := Some(i), lost := w.lost + over), CasRunning(q, i))
    case CasRunning(q, i) =>
      if w.state == Starting then Go(w.(state := Running), ClashLookup(q, i)) else Go(w, FailSwap(q, i))
    case FailSwap(q, i) => Go(w.(running := None), FailClose(q, w.running))
    case FailClose(q, prev) => Go(Close(w, prev), StartUnlock(q))
  }

  /** subscribeHooks. */
  function StepHooks(w: Words, t: Tid, pc: Pc, ok: bool): Outcome
    requires InHooks(pc)
  {
    match pc
    case ClashLookup(q, i) =>
      if w.running.None? || !ok then Go(w, StartUnlock(q)) else Go(w, HooksLock(q, i))
    case HooksLock(q, i) =>
      if w.hooksMu.Some? then Go(w, pc) else Go(w.(hooksMu := Some(t)), HooksSwap(q, i))
    case HooksSwap(q, i) => Go(w.(subCancel := None), HooksCancel(q, i, w.subCancel))
    case HooksCancel(q, i, sub) => Go(w.(live := Minus(w.live, sub)), HooksCheck(q, i))
    case HooksCheck(q, i) =>
      if w.running != Some(i) then Go(w, HooksUnlock(q)) else Go(w, HooksInstall(q, i))
    case HooksInstall(q, i) => Go(w.(subCancel := Some(i)), HooksSpawn(q, i))
    case HooksSpawn(q, i) => Go(w.(live := w.live + {i}), HooksUnlock(q))
    case HooksUnlock(q) => Go(w.(hooksMu := None), StartUnlock(q))
  }

  /** The CAS retry loops of Stop and Destroy. */
  function StepStop(w: Words, pc: Pc): Outcome
    requires InStop(pc)
  {
    match pc
    case StopLoad(c) =>
      if w.state != Running && w.state != Starting then StopReturn(w, c) else Go(w, StopCas(c, w.state))
    case StopCas(c, seen) =>
      if w.state == seen then Go(w.(state := Initialized), Detach(c)) else Go(w, StopLoad(c))
    case DestroyLoad =>
      if w.state == Destroyed then Outcome(w, None) else Go(w, DestroyCas(w.state))
    case DestroyCas(seen) =>
      if w.state == seen then Go(w.(state := Destroyed), Detach(Host)) else Go(w, DestroyLoad)
  }

  /** What Stop and Destroy do after their CAS: detach the instance first, then unsubscribe, then close. */
  function StepTail(w: Words, t: Tid, pc: Pc): Outcome
    requires InTail(pc)
  {
    match pc
    case Detach(c) => Go(w.(running := None), UnsubLock(c, w.running))
    case UnsubLock(c, prev) =>
      if w.hooksMu.Some? then Go(w, pc) else Go(w.(hooksMu := Some(t)), UnsubSwap(c, prev))
    case UnsubSwap(c, prev) => Go(w.(subCancel := None), UnsubCancel(c, prev, w.subCancel))
    case UnsubCancel(c, prev, sub) => Go(w.(live := Minus(w.live, sub)), UnsubUnlock(c, prev))
    case UnsubUnlock(c, prev) => Go(w.(hooksMu := None), CloseOld(c, prev))
    case CloseOld(c, prev) => StopReturn(Close(w, prev), c)
  }

  /** One atomic operation of a call standing at `pc`. `ok` is the outcome of what the model does not see:
      translation, creating and starting an instance, and whether the Clash API is enabled. A call waiting for
      a held mutex does not move. */
  function Act(w: Words, t: Tid, pc: Pc, ok: bool): Outcome {
    if InLaunch(pc) then StepLaunch(w, pc, ok)
    else if InHooks(pc) then StepHooks(w, t, pc, ok)
    else if InStop(pc) then StepStop(w, pc)
    else if InTail(pc) then StepTail(w, t, pc)
    else StepStart(w, t, pc, ok)
  }

  datatype Sys = Sys(w: Words, threads: map<Tid, Pc>)

  function Put(threads: map<Tid, Pc>, t: Tid, next: Option<Pc>): map<Tid, Pc> {
    if next.Some? then threads[t := next.value] else threads - {t}
  }

  /** Everything that can happen next: a host makes a call, a call in flight advances, or an InitContext that will
      succeed leaves Created. (Module Initialization adds the ones that fail.) */
  datatype Step =
    | Call(t: Tid, entry: Pc)
    | Move(t: Tid, ok: bool)
    | InitContext

  predicate Enabled(s: Sys, a: Step) {
    match a
    case Call(t, entry) => t !in s.threads && entry in {StartSeq, StopLoad(Host), DestroyLoad}
    case Move(t, _) => t in s.threads
    case InitContext => s.w.state == Created
  }

  function Do(s: Sys, a: Step): Sys
    requires Enabled(s, a)
  {
    match a
    case Call(t, entry) => Sys(s.w, s.threads[t := entry])
    case Move(t, ok) =>
      var o := Act(s.w, t, s.threads[t], ok);
      Sys(o.w, Put(s.threads, t, o.next))
    case InitContext => Sys(s.w.(state := Initialized), s.threads)
  }

  /** The service as NewService makes it. */
  const NEW_SERVICE: Sys :=
    Sys(Words(Created, None, 0, None, None, None, {}, 0, multiset{}, {}, [], {}, 0), map[])

  /** The steps can be taken from s, one after another. */
  ghost predicate Runnable(s: Sys, steps: seq<Step>)
    decreases |steps|
  {
    steps == [] || (Enabled(s, steps[0]) && Runnable(Do(s, steps[0]), steps[1..]))
  }

  /** The state those steps lead to. */
  ghost function After(s: Sys, steps: seq<Step>): Sys
    requires Runnable(s, steps)
    decreases |steps|
  {
    if steps == [] then s else After(Do(s, steps[0]), steps[1..])
  }
}
