/** Starts by content. "Newest wins" is decided by sequence numbers, and a restart of the health watchdog takes a new
    number for a content it has read earlier, from the instance then running. This module adds contents to the machine
    of ServiceProtocol: each is named by the number of the host's start that brought it. */
module Restarts {
  import opened Basics
  import opened ServiceProtocol
  import opened ServiceInvariants
  import opened ServiceTheorems
  import opened Revivals

  /** The machine, and: what the watchdog has read, what its restarts in flight bring, the content behind each number,
      the number that made each instance, and the newest content the host has brought. */
  datatype Run = Run(s: Sys, read: Option<nat>, brought: map<Tid, nat>, content: map<nat, nat>, maker: map<Inst, nat>,
                     newest: nat)

  const NEW_RUN := Run(NEW_SERVICE, None, map[], map[], map[], 0)

  /** A step of the machine (a start it calls is the host's), or one of restartForHealth: reading the running
      configuration, and calling StartWithContent with what was read. */
  datatype Event = Plain(a: Step) | Reads | Restart(t: Tid)

  predicate Can(r: Run, e: Event) {
    match e
    case Plain(a) => Enabled(r.s, a)
    case Reads => r.s.w.running.Some? && r.s.w.running.value in r.maker && r.maker[r.s.w.running.value] in r.content
    case Restart(t) => r.read.Some? && Enabled(r.s, Call(t, StartSeq))
  }

  /** The step takes a number. */
  predicate TakesNumber(s: Sys, a: Step) { a.Move? && a.t in s.threads && s.threads[a.t] == StartSeq && a.ok }

  predicate MakesInstance(s: Sys, a: Step) { a.Move? && a.t in s.threads && s.threads[a.t].Launch? && a.ok }

  function Next(r: Run, e: Event): Run
    requires Can(r, e)
  {
    match e
    case Plain(a) =>
      var n := Do(r.s, a);
      var q := r.s.w.startSeq + 1;
      if TakesNumber(r.s, a) then
        if a.t in r.brought then Run(n, r.read, r.brought - {a.t}, r.content[q := r.brought[a.t]], r.maker, r.newest)
        else Run(n, r.read, r.brought, r.content[q := q], r.maker, q)
      else if MakesInstance(r.s, a) then r.(s := n, maker := r.maker[r.s.w.made := r.s.threads[a.t].my])
      else if a.Move? && r.s.threads[a.t] == StartSeq then r.(s := n, brought := r.brought - {a.t})
      else r.(s := n)
    case Reads => r.(read := Some(r.content[r.maker[r.s.w.running.value]]))
    case Restart(t) => r.(s := Do(r.s, Call(t, StartSeq)), read := None, brought := r.brought[t := r.read.value])
  }

  ghost predicate Possible(r: Run, events: seq<Event>)
    decreases |events|
  {
    events == [] || (Can(r, events[0]) && Possible(Next(r, events[0]), events[1..]))
  }

  ghost function Finally(r: Run, events: seq<Event>): Run
    requires Possible(r, events)
    decreases |events|
  {
    if events == [] then r else Finally(Next(r, events[0]), events[1..])
  }

  // ---- runs of contents are runs of the machine ----

  function StepOf(e: Event): seq<Step> {
    match e
    case Plain(a) => [a]
    case Reads => []
    case Restart(t) => [Call(t, StartSeq)]
  }

  function Steps(events: seq<Event>): seq<Step> {
    if events == [] then [] else StepOf(events[0]) + Steps(events[1..])
  }

  lemma NextSteps(r: Run, e: Event)
    requires Can(r, e)
    ensures e.Reads? ==> Next(r, e).s == r.s
    ensures e.Plain? ==> Enabled(r.s, e.a) && Next(r, e).s == Do(r.s, e.a)
    ensures e.Restart? ==> Enabled(r.s, Call(e.t, StartSeq)) && Next(r, e).s == Do(r.s, Call(e.t, StartSeq))
  {}

  /** Contents change nothing: without them the run is one of the machine. */
  lemma {:induction false} RunsAreRuns(r: Run, events: seq<Event>)
    requires Possible(r, events)
    ensures Runnable(r.s, Steps(events)) && After(r.s, Steps(events)) == Finally(r, events).s
    decreases |events|
  {
    if events != [] {
      var e := events[0];
      NextSteps(r, e);
      hide Next, Can, Do, Enabled;
      RunsAreRuns(Next(r, e), events[1..]);
      var rest := Steps(events[1..]);
      if e.Reads? {
        assert Steps(events) == rest;
      } else {
        assert Steps(events)[1..] == rest;
      }
    }
  }

  // ---- every number has a content, every instance a number ----

  /** The number a start still at work carries along. */
  function NumberOf(pc: Pc): Option<nat> {
    match pc
    case StopLoad(c) => CallerNumber(c)
    case StopCas(c, _) => CallerNumber(c)
    case Detach(c) => CallerNumber(c)
    case UnsubLock(c, _) => CallerNumber(c)
    case UnsubSwap(c, _) => CallerNumber(c)
    case UnsubCancel(c, _, _) => CallerNumber(c)
    case UnsubUnlock(c, _) => CallerNumber(c)
    case CloseOld(c, _) => CallerNumber(c)
    case StartSeq => None
    case DestroyLoad => None
    case DestroyCas(_) => None
    case _ => Some(pc.my)
  }

  function CallerNumber(c: Caller): Option<nat> { if c.ByStart? then Some(c.my) else None }

  /** A call keeps its number; only StartSeq takes one. */
  predicate KeepsNumber(w: Words, pc: Pc, o: Outcome) {
    o.next.Some? && NumberOf(o.next.value).Some? ==>
      NumberOf(o.next.value) == NumberOf(pc) || (pc == StartSeq && NumberOf(o.next.value) == Some(w.startSeq + 1))
  }

  lemma NumberKeptStarting(w: Words, t: Tid, pc: Pc, ok: bool)
    ensures InLaunch(pc) ==> KeepsNumber(w, pc, StepLaunch(w, pc, ok))
    ensures InHooks(pc) ==> KeepsNumber(w, pc, StepHooks(w, t, pc, ok))
  {}

  lemma NumberKeptStopping(w: Words, t: Tid, pc: Pc)
    ensures InStop(pc) ==> KeepsNumber(w, pc, StepStop(w, pc))
    ensures InTail(pc) ==> KeepsNumber(w, pc, StepTail(w, t, pc))
  {}

  lemma NumberKept(w: Words, t: Tid, pc: Pc, ok: bool)
    ensures KeepsNumber(w, pc, Act(w, t, pc, ok))
  {
    if InLaunch(pc) || InHooks(pc) {
      hide KeepsNumber, StepLaunch, StepHooks;
      NumberKeptStarting(w, t, pc, ok);
    } else if InStop(pc) || InTail(pc) {
      hide KeepsNumber, StepStop, StepTail;
      NumberKeptStopping(w, t, pc);
    } else {
      assert KeepsNumber(w, pc, StepStart(w, t, pc, ok));
    }
  }

  ghost predicate Recorded(r: Run) {
    && (forall q: nat :: q in r.content <==> 1 <= q <= r.s.w.startSeq)
    && (forall i: Inst :: i in r.maker <==> i < r.s.w.made)
    && (forall i: Inst :: i in r.maker ==> 1 <= r.maker[i] <= r.s.w.startSeq)
    && (forall t: Tid :: t in r.s.threads && NumberOf(r.s.threads[t]).Some? ==>
          1 <= NumberOf(r.s.threads[t]).value <= r.s.w.startSeq)
  }

  lemma ThreadNumbersKept(r: Run, a: Step)
    requires Enabled(r.s, a) && Recorded(r)
    ensures var n := Do(r.s, a);
            forall t: Tid :: t in n.threads && NumberOf(n.threads[t]).Some? ==>
              1 <= NumberOf(n.threads[t]).value <= n.w.startSeq
  {
    hide Act;
    NumberAfter(r.s, a);
    if a.Move? { NumberKept(r.s.w, a.t, r.s.threads[a.t], a.ok); }
    if a.Move? && r.s.threads[a.t] == StartSeq && !a.ok { FailsAway(r.s.w, a.t); }
  }

  lemma FailsAway(w: Words, t: Tid)
    ensures Act(w, t, StartSeq, false).next.None?
  {}

  lemma RecordedAfter(r: Run, n: Run)
    requires Recorded(r)
    requires n.s.w.startSeq == r.s.w.startSeq || n.s.w.startSeq == r.s.w.startSeq + 1
    requires n.content.Keys == r.content.Keys + (if n.s.w.startSeq == r.s.w.startSeq then {} else {n.s.w.startSeq})
    requires n.s.w.made == r.s.w.made ==> n.maker == r.maker
    requires n.s.w.made != r.s.w.made ==>
               n.s.w.made == r.s.w.made + 1 && n.maker.Keys == r.maker.Keys + {r.s.w.made}
                 && 1 <= n.maker[r.s.w.made] <= r.s.w.startSeq
               && forall i :: i in r.maker && i != r.s.w.made ==> n.maker[i] == r.maker[i]
    requires forall t: Tid :: t in n.s.threads && NumberOf(n.s.threads[t]).Some? ==>
               1 <= NumberOf(n.s.threads[t]).value <= n.s.w.startSeq
    ensures Recorded(n)
  {
    assert forall q: nat :: q in n.content <==> q in n.content.Keys;
    assert forall i: Inst :: i in n.maker <==> i in n.maker.Keys;
  }

  /** What a step of the machine adds to the records. */
  lemma NextRecords(r: Run, a: Step)
    requires Can(r, Plain(a))
    ensures var n := Next(r, Plain(a));
            && n.content.Keys == r.content.Keys + (if TakesNumber(r.s, a) then {r.s.w.startSeq + 1} else {})
            && n.maker == if MakesInstance(r.s, a) then r.maker[r.s.w.made := r.s.threads[a.t].my] else r.maker
  {
    hide Do, Act;
  }

  lemma StepRecorded(r: Run, a: Step)
    requires Can(r, Plain(a)) && Recorded(r)
    ensures Recorded(Next(r, Plain(a)))
  {
    ThreadNumbersKept(r, a);
    NumberAfter(r.s, a);
    MadeAfter(r.s, a);
    NextSteps(r, Plain(a));
    NextRecords(r, a);
    if MakesInstance(r.s, a) { assert NumberOf(r.s.threads[a.t]) == Some(r.s.threads[a.t].my); }
    hide Next, Do, Act, NumberOf;
    RecordedAfter(r, Next(r, Plain(a)));
  }

  lemma RecordedKept(r: Run, e: Event)
    requires Can(r, e) && Recorded(r)
    ensures Recorded(Next(r, e))
  {
    match e
    case Plain(a) =>
      hide Recorded, Next, Can;
      StepRecorded(r, a);
    case Reads =>
    case Restart(t) => assert forall u: Tid :: u in Next(r, e).s.threads && u != t ==> u in r.s.threads;
  }

  lemma {:induction false} RecordedAlong(r: Run, events: seq<Event>)
    requires Possible(r, events) && Recorded(r)
    ensures Recorded(Finally(r, events))
    decreases |events|
  {
    if events != [] {
      RecordedKept(r, events[0]);
      RecordedAlong(Next(r, events[0]), events[1..]);
    }
  }

  /** A restart can read a content whenever there is an instance. */
  lemma ReadsWhenRunning(events: seq<Event>)
    requires Possible(NEW_RUN, events)
    ensures Can(Finally(NEW_RUN, events), Reads) <==> Finally(NEW_RUN, events).s.w.running.Some?
  {
    RecordedAlong(NEW_RUN, events);
    RunsAreRuns(NEW_RUN, events);
    InvAfterRun(Steps(events));
  }

  // ---- which content is in force ----

  /** The newest number stands for the newest content of the host. */
  predicate UpToDate(r: Run) {
    r.s.w.startSeq > 0 ==> r.s.w.startSeq in r.content && r.content[r.s.w.startSeq] == r.newest
  }

  /** A restart takes a number for a content that is not the host's newest. */
  predicate Overtakes(r: Run, e: Event) {
    e.Plain? && TakesNumber(r.s, e.a) && e.a.t in r.brought && r.brought[e.a.t] != r.newest
  }

  lemma NumberAfter(s: Sys, a: Step)
    requires Enabled(s, a)
    ensures Do(s, a).w.startSeq == if TakesNumber(s, a) then s.w.startSeq + 1 else s.w.startSeq
  {
    if a.Move? { SeqOf(s.w, a.t, s.threads[a.t], a.ok); }
  }

  /** That is the one way the newest content stops being the one in force, and a number of the host's, or of a restart
      that has read the newest content, puts it in force again. */
  lemma OvertakenExactly(r: Run, e: Event)
    requires Can(r, e)
    ensures if e.Plain? && TakesNumber(r.s, e.a) then UpToDate(Next(r, e)) <==> !Overtakes(r, e)
            else UpToDate(Next(r, e)) <==> UpToDate(r)
  {
    if e.Plain? { NumberAfter(r.s, e.a); }
  }

  /** The last event that took a number overtook; `before` says so of those before the run. */
  ghost predicate LastOvertook(r: Run, events: seq<Event>, before: bool)
    requires Possible(r, events)
    decreases |events|
  {
    if events == [] then before
    else
      var e := events[0];
      LastOvertook(Next(r, e), events[1..], if e.Plain? && TakesNumber(r.s, e.a) then Overtakes(r, e) else before)
  }

  lemma {:induction false} UpToDateAlong(r: Run, events: seq<Event>, before: bool)
    requires Possible(r, events) && (UpToDate(r) <==> !before)
    ensures UpToDate(Finally(r, events)) <==> !LastOvertook(r, events, before)
    decreases |events|
  {
    hide Next, Can, Overtakes, UpToDate, TakesNumber;
    if events != [] {
      var e := events[0];
      OvertakenExactly(r, e);
      UpToDateAlong(Next(r, e), events[1..], if e.Plain? && TakesNumber(r.s, e.a) then Overtakes(r, e) else before);
    }
  }

  /** Once no call is in flight, the last attempt is for the newest content of the host, if and only if the last event
      that took a number was not a restart for an older one. */
  lemma NewestContentWinsExactly(events: seq<Event>)
    requires Possible(NEW_RUN, events)
    ensures var r := Finally(NEW_RUN, events);
            var attempts := r.s.w.attempts;
            Quiescent(r.s) && r.s.w.startSeq > 0 ==>
              && attempts != [] && attempts[|attempts| - 1] in r.content
              && (r.content[attempts[|attempts| - 1]] == r.newest <==> !LastOvertook(NEW_RUN, events, false))
  {
    RunsAreRuns(NEW_RUN, events);
    NewestStartWins(Steps(events));
    RecordedAlong(NEW_RUN, events);
    UpToDateAlong(NEW_RUN, events, false);
  }

  // ---- Stops that a restart undoes ----

  /** Number q was taken for a restart: it stands for an older content. */
  predicate ForRestart(r: Run, q: nat) { q in r.content && r.content[q] != q }

  /** What a restart has read comes from an instance. */
  ghost predicate Sourced(r: Run) {
    r.read.Some? || r.brought != map[] || (exists q: nat :: ForRestart(r, q)) ==> r.s.w.made > 0
  }

  lemma SourcedKept(r: Run, e: Event)
    requires Can(r, e) && Recorded(r) && Sourced(r)
    ensures Sourced(Next(r, e))
  {
    if e.Plain? { MadeAfter(r.s, e.a); }
    hide Do, Act;
    var n := Next(r, e);
    forall q: nat | ForRestart(n, q) ensures n.s.w.made > 0 {
      assert q in r.content && n.content[q] == r.content[q] ==> ForRestart(r, q);
    }
  }

  lemma {:induction false} SourcedAlong(r: Run, events: seq<Event>)
    requires Possible(r, events) && Recorded(r) && Sourced(r)
    ensures Sourced(Finally(r, events))
    decreases |events|
  {
    hide Sourced, Recorded, Next, Can;
    if events != [] {
      SourcedKept(r, events[0]);
      RecordedKept(r, events[0]);
      SourcedAlong(Next(r, events[0]), events[1..]);
    }
  }

  /** A restart that enters Starting does so although the host has stopped or destroyed the service since the last start
      entered, if and only if its own Stop has found nothing to stop and the last start has not failed: what
      restartForHealth could check, and does not. */
  lemma RestartRevivesExactly(events: seq<Event>, t: Tid)
    requires Possible(NEW_RUN, events)
    requires var r := Finally(NEW_RUN, events);
             t in r.s.threads && r.s.threads[t].StartCas? && r.s.w.state == Initialized
               && ForRestart(r, r.s.threads[t].my)
    ensures Runnable(NEW_SERVICE, Steps(events))
    ensures var m := MarksAfter(NEW_SERVICE, NO_MARKS, Steps(events));
            m.halted <==> Finally(NEW_RUN, events).s.threads[t].my !in m.cleared && !m.failed
  {
    RunsAreRuns(NEW_RUN, events);
    SourcedAlong(NEW_RUN, events);
    RevivesExactly(Steps(events), t);
    MadeBySomeStart(Steps(events));
  }

  // ---- two restarts that go wrong ----

  ghost predicate Leads(r: Run, n: Run) { exists events :: Possible(r, events) && Finally(r, events) == n }

  lemma {:induction false} PossibleJoin(r: Run, one: seq<Event>, two: seq<Event>)
    requires Possible(r, one) && Possible(Finally(r, one), two)
    ensures Possible(r, one + two) && Finally(r, one + two) == Finally(Finally(r, one), two)
    decreases |one|
  {
    hide Next, Can;
    if one == [] {
      assert one + two == two;
    } else {
      PossibleJoin(Next(r, one[0]), one[1..], two);
      assert (one + two)[1..] == one[1..] + two;
    }
  }

  lemma LeadsOn(r: Run, m: Run, n: Run)
    requires Leads(r, m) && Leads(m, n)
    ensures Leads(r, n)
  {
    var one :| Possible(r, one) && Finally(r, one) == m;
    var two :| Possible(m, two) && Finally(m, two) == n;
    PossibleJoin(r, one, two);
  }

  lemma LeadsNext(r: Run, m: Run, e: Event) returns (n: Run)
    requires Leads(r, m) && Can(m, e)
    ensures n == Next(m, e) && Leads(r, n)
  {
    n := Next(m, e);
    assert [e][1..] == [];
    assert Possible(n, []) && Possible(m, [e]) && Finally(m, [e]) == Finally(n, []);
    LeadsOn(r, m, n);
  }

  /** A run of the machine that takes no number and makes no instance goes through with contents as they are. */
  lemma {:induction false} Lifts(r: Run, steps: seq<Step>) returns (n: Run)
    requires Runnable(r.s, steps)
    ensures Leads(r, n) && n.s == After(r.s, steps) && n.read == r.read && n.brought.Keys <= r.brought.Keys
    ensures n.s.w.startSeq == r.s.w.startSeq ==> n.content == r.content && n.newest == r.newest
    ensures r.s.w.startSeq <= n.s.w.startSeq
    ensures n.s.w.made == r.s.w.made ==> n.maker == r.maker
    ensures r.s.w.made <= n.s.w.made
    decreases |steps|
  {
    assert Possible(r, []) && Finally(r, []) == r;
    if steps == [] {
      n := r;
    } else {
      var m := LeadsNext(r, r, Plain(steps[0]));
      NumberAfter(r.s, steps[0]);
      n := Lifts(m, steps[1..]);
      LeadsOn(r, m, n);
      MadeAfter(r.s, steps[0]);
    }
  }

  lemma MadeAfter(s: Sys, a: Step)
    requires Enabled(s, a)
    ensures Do(s, a).w.made == if MakesInstance(s, a) then s.w.made + 1 else s.w.made
  {
    if a.Move? && !InLaunch(s.threads[a.t]) { InstOf(s.w, a.t, s.threads[a.t], a.ok); }
  }

  lemma LiftsTo(r: Run, s: Sys) returns (n: Run)
    requires Reaches(r.s, s)
    ensures Leads(r, n) && n.s == s && n.read == r.read && n.brought.Keys <= r.brought.Keys
    ensures s.w.startSeq == r.s.w.startSeq ==> n.content == r.content && n.newest == r.newest
    ensures s.w.made == r.s.w.made ==> n.maker == r.maker
  {
    var steps :| Runnable(r.s, steps) && After(r.s, steps) == s;
    n := Lifts(r, steps);
  }

  /** The newest start goes on to where it makes its instance. */
  lemma StartEnters(r: Run, t: Tid, q: nat) returns (n: Run)
    requires r.s.threads == map[t := StartLock(q)] && r.s.w.startSeq == q
    requires r.s.w.startMu == None && r.s.w.state == Initialized
    ensures Leads(r, n)
    ensures n.s == Sys(r.s.w.(startMu := Some(t), attempts := r.s.w.attempts + [q], state := Starting, starter := q),
                       map[t := Launch(q)])
    ensures n.read == r.read && n.content == r.content && n.maker == r.maker && n.newest == r.newest
            && n.brought.Keys <= r.brought.Keys
  {
    PassLock(r.s, t, q);
    var l := Sys(r.s.w.(startMu := Some(t), attempts := r.s.w.attempts + [q]), r.s.threads[t := StopLoad(ByStart(q))]);
    EnterAlone(l, t, q);
    var m := Sys(l.w.(state := Starting, starter := q), l.threads[t := Launch(q)]);
    ReachesTransitively(r.s, l, m);
    n := LiftsTo(r, m);
    assert m.threads == map[t := Launch(q)];
  }

  /** It makes its instance, and runs it. */
  lemma StartLaunches(r: Run, t: Tid, q: nat) returns (n: Run)
    requires r.s.threads == map[t := Launch(q)] && r.s.w.state == Starting
    ensures Leads(r, n)
    ensures n.s == Sys(r.s.w.(state := Running, running := Some(r.s.w.made), startMu := None, made := r.s.w.made + 1,
                              lost := r.s.w.lost + Subs(r.s.w.running)), map[])
    ensures n.read == r.read && n.content == r.content && n.newest == r.newest && n.brought.Keys <= r.brought.Keys
    ensures n.maker == r.maker[r.s.w.made := q]
  {
    assert Possible(r, []) && Finally(r, []) == r;
    var m := LeadsNext(r, r, Plain(Move(t, true)));
    StoreAlone(m.s, t, q, r.s.w.made);
    n := LiftsTo(m, Sys(m.s.w.(state := Running, running := Some(r.s.w.made), startMu := None,
                               lost := m.s.w.lost + Subs(m.s.w.running)),
                        m.s.threads - {t}));
    LeadsOn(r, m, n);
    assert n.s.threads == map[];
  }

  /** It takes its number, for the content it brings. */
  lemma StartNumbers(r: Run, t: Tid) returns (n: Run)
    requires r.s.threads == map[t := StartSeq]
    ensures var q := r.s.w.startSeq + 1;
            && Leads(r, n) && n.s == Sys(r.s.w.(startSeq := q), map[t := StartLock(q)])
            && n.read == r.read && n.maker == r.maker && n.brought.Keys <= r.brought.Keys
            && n.content == r.content[q := if t in r.brought then r.brought[t] else q]
            && n.newest == if t in r.brought then r.newest else q
  {
    assert Possible(r, []) && Finally(r, []) == r;
    n := LeadsNext(r, r, Plain(Move(t, true)));
    assert n.s.threads == map[t := StartLock(r.s.w.startSeq + 1)];
  }

  /** The only call in flight is a start about to take its number: it goes through, with the content it brings. */
  lemma StartGoes(r: Run, t: Tid) returns (n: Run)
    requires r.s.threads == map[t := StartSeq] && r.s.w.startMu == None && r.s.w.state == Initialized
    ensures var q := r.s.w.startSeq + 1;
            && Leads(r, n)
            && n.s == Sys(r.s.w.(state := Running, running := Some(r.s.w.made), startSeq := q, made := r.s.w.made + 1,
                                 lost := r.s.w.lost + Subs(r.s.w.running), attempts := r.s.w.attempts + [q],
                                   starter := q), map[])
            && n.read == r.read && n.maker == r.maker[r.s.w.made := q] && n.brought.Keys <= r.brought.Keys
            && n.content == r.content[q := if t in r.brought then r.brought[t] else q]
            && n.newest == if t in r.brought then r.newest else q
  {
    var q := r.s.w.startSeq + 1;
    var one := StartNumbers(r, t);
    var two := StartEnters(one, t, q);
    n := StartLaunches(two, t, q);
    LeadsOn(r, one, two);
    LeadsOn(r, two, n);
  }

  /** A host's Stop on a running service, nobody in its way. */
  lemma StopGoes(r: Run, t: Tid, i: Inst) returns (n: Run)
    requires r.s.threads == map[] && r.s.w.state == Running && r.s.w.running == Some(i)
    requires r.s.w.hooksMu == None && r.s.w.subCancel == None
    ensures Leads(r, n)
    ensures n.s == Sys(r.s.w.(state := Initialized, running := None, closes := r.s.w.closes + multiset{i}), map[])
    ensures n.read == r.read && n.content == r.content && n.maker == r.maker && n.newest == r.newest
    ensures n.brought.Keys <= r.brought.Keys
  {
    BeginStop(r.s, t);
    var m := Sys(r.s.w.(state := Initialized), r.s.threads[t := Detach(Host)]);
    FinishStop(m, t, i);
    var z := Sys(m.w.(running := None, closes := m.w.closes + multiset{i}), m.threads - {t});
    ReachesTransitively(r.s, m, z);
    n := LiftsTo(r, z);
    assert n.s.threads == map[];
  }

  /** The host starts content 1, the watchdog reads it, and the host stops. */
  lemma ReadsAndStops() returns (r: Run)
    ensures Leads(NEW_RUN, r) && r.s.threads == map[] && r.read == Some(1) && r.brought == map[]
    ensures r.newest == 1 && r.s.w == NEW_SERVICE.w.(state := Initialized, startSeq := 1, made := 1,
                                                     closes := multiset{0}, attempts := [1], starter := 1)
  {
    assert Possible(NEW_RUN, []) && Finally(NEW_RUN, []) == NEW_RUN;
    r := LeadsNext(NEW_RUN, NEW_RUN, Plain(InitContext));
    r := HostStarts(NEW_RUN, r, 1);
    r := LeadsNext(NEW_RUN, r, Reads);
    r := HostStops(NEW_RUN, r, 0);
  }

  /** After that the host starts content 2, and stops again; then the restart calls.
      At rest the service is Running, although the host's last call was a Stop, and on content 1, although the newest
      is 2. */
  lemma StaleRestartWins() returns (r: Run)
    ensures Leads(NEW_RUN, r) && Quiescent(r.s) && r.s.w.state == Running && r.s.w.running == Some(2)
    ensures r.newest == 2 && r.s.w.attempts == [1, 2, 3] && 3 in r.content && r.content[3] == 1
  {
    hide Next, Can, Leads;
    r := ReadsAndStops();
    r := HostStarts(NEW_RUN, r, 1);
    r := HostStops(NEW_RUN, r, 1);
    r := RestartGoes(NEW_RUN, r, 1);
  }

  /** Nor does it take an older content. The restart calls right after that Stop: at rest the service is Running, on the
      newest content, although the host's last call was a Stop. */
  lemma StopUndone() returns (r: Run)
    ensures Leads(NEW_RUN, r) && Quiescent(r.s) && r.s.w.state == Running && r.s.w.running == Some(1)
    ensures UpToDate(r) && r.newest == 1
  {
    hide Next, Can, Leads;
    r := ReadsAndStops();
    r := RestartGoes(NEW_RUN, r, 1);
  }

  /** A restart calls, nobody in its way. */
  lemma RestartGoes(r: Run, m: Run, t: Tid) returns (n: Run)
    requires Leads(r, m) && m.s.threads == map[] && m.s.w.startMu == None && m.s.w.state == Initialized && m.read.Some?
    ensures var q := m.s.w.startSeq + 1;
            && Leads(r, n)
            && n.s == Sys(m.s.w.(state := Running, running := Some(m.s.w.made), startSeq := q, made := m.s.w.made + 1,
                                 lost := m.s.w.lost + Subs(m.s.w.running), attempts := m.s.w.attempts + [q],
                                   starter := q), map[])
            && n.content == m.content[q := m.read.value] && n.newest == m.newest
  {
    var c := LeadsNext(r, m, Restart(t));
    n := StartGoes(c, t);
    LeadsOn(r, c, n);
  }

  lemma HostStarts(r: Run, m: Run, t: Tid) returns (n: Run)
    requires Leads(r, m) && m.s.threads == map[] && m.s.w.startMu == None && m.s.w.state == Initialized
             && t !in m.brought
    ensures var q := m.s.w.startSeq + 1;
            && Leads(r, n)
            && n.s == Sys(m.s.w.(state := Running, running := Some(m.s.w.made), startSeq := q, made := m.s.w.made + 1,
                                 lost := m.s.w.lost + Subs(m.s.w.running), attempts := m.s.w.attempts + [q],
                                   starter := q), map[])
            && n.read == m.read && n.maker == m.maker[m.s.w.made := q] && n.content == m.content[q := q]
              && n.newest == q
            && n.brought.Keys <= m.brought.Keys
  {
    var c := LeadsNext(r, m, Plain(Call(t, StartSeq)));
    n := StartGoes(c, t);
    LeadsOn(r, c, n);
  }

  lemma HostStops(r: Run, m: Run, i: Inst) returns (n: Run)
    requires Leads(r, m) && m.s.threads == map[] && m.s.w.state == Running && m.s.w.running == Some(i)
    requires m.s.w.hooksMu == None && m.s.w.subCancel == None
    ensures Leads(r, n)
    ensures n.s == Sys(m.s.w.(state := Initialized, running := None, closes := m.s.w.closes + multiset{i}), map[])
    ensures n.read == m.read && n.content == m.content && n.maker == m.maker && n.newest == m.newest
    ensures n.brought.Keys <= m.brought.Keys
  {
    n := StopGoes(m, 1, i);
    LeadsOn(r, m, n);
  }
}
