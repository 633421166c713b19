/** TestGroupDelay: one caller launches a probe goroutine per member under a counting semaphore and waits for all of
    them; results are written to one map under a mutex. Every interleaving, and cancellation at any time. */
module GroupDelay {
  import opened Basics

  const CONCURRENCY: nat := 16

  /** Where the caller stands; i is the member it is at. */
  datatype Main = Select(i: nat) | SkipLock(i: nat) | SkipWrite(i: nat) | SkipUnlock(i: nat)
                | Slotted(i: nat) | Added(i: nat) | Waiting | Returned

  /** Where the goroutine of a member stands. */
  datatype Worker = Probing | Locking(delay: int) | Storing(delay: int) | Unlocking | Releasing | Finishing

  datatype Owner = Caller | Member(j: nat)

  /** The shared words, and a record of what was probed (with the delay found, -1 for a failure) and skipped. */
  datatype Sys = Sys(main: Main, workers: map<nat, Worker>, sem: nat, wg: nat, mu: Option<Owner>, cancelled: bool,
                     results: map<string, int>, probed: map<nat, int>, skipped: set<nat>)

  const ENTERED := Sys(Select(0), map[], 0, 0, None, false, map[], map[], {})

  /** The caller's next operation, a worker's (with what its probe yields), or the deadline or a stop of the service. */
  datatype Step = CallerMoves(skip: bool) | WorkerMoves(j: nat, delay: int) | Cancelled

  predicate Enabled(tags: seq<string>, s: Sys, a: Step) {
    match a
    case Cancelled => true
    case WorkerMoves(j, delay) =>
      j in s.workers &&
      (match s.workers[j]
       case Locking(_) => s.mu.None?
       case Storing(_) => j < |tags|
       case Releasing => s.sem > 0
       case Finishing => s.wg > 0
       case _ => true)
    case CallerMoves(skip) =>
      match s.main
      case Select(i) => i >= |tags| || (if skip then s.cancelled else s.sem < CONCURRENCY)
      case SkipLock(_) => s.mu.None?
      case SkipWrite(i) => i < |tags|
      case Waiting => s.wg == 0
      case Returned => false
      case _ => true
  }

  function CallerStep(tags: seq<string>, s: Sys, skip: bool): Sys
    requires Enabled(tags, s, CallerMoves(skip))
  {
    match s.main
    case Select(i) =>
      if i >= |tags| then s.(main := Waiting)
      else if skip then s.(main := SkipLock(i))
      else s.(sem := s.sem + 1, main := Slotted(i))
    case SkipLock(i) => s.(mu := Some(Caller), main := SkipWrite(i))
    case SkipWrite(i) => s.(results := s.results[tags[i] := -1], skipped := s.skipped + {i}, main := SkipUnlock(i))
    case SkipUnlock(i) => s.(mu := None, main := Select(i + 1))
    case Slotted(i) => s.(wg := s.wg + 1, main := Added(i))
    case Added(i) => s.(workers := s.workers[i := Probing], main := Select(i + 1))
    case Waiting => s.(main := Returned)
    case Returned => s
  }

  function WorkerStep(tags: seq<string>, s: Sys, j: nat, delay: int): Sys
    requires Enabled(tags, s, WorkerMoves(j, delay))
  {
    match s.workers[j]
    case Probing => s.(workers := s.workers[j := Locking(delay)], probed := s.probed[j := delay])
    case Locking(d) => s.(mu := Some(Member(j)), workers := s.workers[j := Storing(d)])
    case Storing(d) => s.(results := s.results[tags[j] := d], workers := s.workers[j := Unlocking])
    case Unlocking => s.(mu := None, workers := s.workers[j := Releasing])
    case Releasing => s.(sem := s.sem - 1, workers := s.workers[j := Finishing])
    case Finishing => s.(wg := s.wg - 1, workers := s.workers - {j})
  }

  function Do(tags: seq<string>, s: Sys, a: Step): Sys
    requires Enabled(tags, s, a)
  {
    match a
    case Cancelled => s.(cancelled := true)
    case CallerMoves(skip) => CallerStep(tags, s, skip)
    case WorkerMoves(j, delay) => WorkerStep(tags, s, j, delay)
  }

  ghost predicate Runnable(tags: seq<string>, s: Sys, steps: seq<Step>)
    decreases |steps|
  {
    steps == [] || (Enabled(tags, s, steps[0]) && Runnable(tags, Do(tags, s, steps[0]), steps[1..]))
  }

  ghost function After(tags: seq<string>, s: Sys, steps: seq<Step>): Sys
    requires Runnable(tags, s, steps)
    decreases |steps|
  {
    if steps == [] then s else After(tags, Do(tags, s, steps[0]), steps[1..])
  }

  // ---- invariants ----

  /** The member the caller is at; all before it have been launched or skipped. */
  function At(tags: seq<string>, main: Main): nat {
    if main.Waiting? || main.Returned? then |tags| else main.i
  }

  /** The workers that occupy a slot of the semaphore. */
  function Slots(workers: map<nat, Worker>): set<nat> {
    set j | j in workers && !workers[j].Finishing?
  }

  ghost predicate InvCounts(tags: seq<string>, s: Sys) {
    && s.sem == |Slots(s.workers)| + (if s.main.Slotted? || s.main.Added? then 1 else 0)
    && s.sem <= CONCURRENCY
    && s.wg == |s.workers| + (if s.main.Added? then 1 else 0)
    && (s.main.Returned? ==> s.workers == map[])
  }

  ghost predicate InvMutex(s: Sys) {
    && (s.main.SkipWrite? || s.main.SkipUnlock? <==> s.mu == Some(Caller))
    && (forall j: nat :: (j in s.workers && (s.workers[j].Storing? || s.workers[j].Unlocking?)) <==>
          s.mu == Some(Member(j)))
  }

  /** The member's result is in the map, or was when another member of the same tag replaced it. */
  predicate Written(s: Sys, j: nat) {
    j in s.skipped || (j in s.probed && (j !in s.workers || s.workers[j].Unlocking? || s.workers[j].Releasing?
                                         || s.workers[j].Finishing?))
  }

  /** What the member contributes. */
  function Value(s: Sys, j: nat): int { if j in s.probed then s.probed[j] else -1 }

  ghost predicate InvMembers(tags: seq<string>, s: Sys) { InvPlaces(tags, s) && InvRecords(tags, s) }

  /** Where the caller is, and that all members before it are accounted for. */
  ghost predicate InvPlaces(tags: seq<string>, s: Sys) {
    && At(tags, s.main) <= |tags|
    && (s.main.Select? || s.main.Waiting? || s.main.Returned? || s.main.i < |tags|)
    && (forall j :: j in s.workers || j in s.probed ==> j < At(tags, s.main))
    && (forall j :: j in s.skipped ==> j < At(tags, s.main) || (s.main.SkipUnlock? && j == s.main.i))
    && (s.main.SkipUnlock? ==> s.main.i in s.skipped)
    && (forall j :: 0 <= j < At(tags, s.main) ==> j in s.workers || Written(s, j))
  }

  /** The records agree with where the workers are. */
  ghost predicate InvRecords(tags: seq<string>, s: Sys) {
    && (forall j :: j in s.skipped ==> j !in s.workers && j !in s.probed)
    && (forall j :: j in s.workers ==> (s.workers[j].Probing? <==> j !in s.probed))
    && (forall j :: j in s.workers && (s.workers[j].Locking? || s.workers[j].Storing?) ==>
          s.workers[j].delay == s.probed[j])
    && (s.skipped != {} || s.main.SkipLock? || s.main.SkipWrite? ==> s.cancelled)
  }

  ghost predicate InvResults(tags: seq<string>, s: Sys) {
    && (forall j :: 0 <= j < |tags| && Written(s, j) ==> tags[j] in s.results)
    && (forall tag :: tag in s.results ==>
          exists j :: 0 <= j < |tags| && tags[j] == tag && Written(s, j) && s.results[tag] == Value(s, j))
  }

  ghost predicate Inv(tags: seq<string>, s: Sys) {
    InvCounts(tags, s) && InvMutex(s) && InvMembers(tags, s) && InvResults(tags, s)
  }

  // ---- every step keeps them ----

  lemma SlotsWith(workers: map<nat, Worker>, j: nat, w: Worker)
    requires !w.Finishing?
    ensures Slots(workers[j := w]) == Slots(workers) + {j}
  {}

  lemma SlotsWithout(workers: map<nat, Worker>, j: nat)
    requires j in workers && !workers[j].Finishing?
    ensures Slots(workers[j := Finishing]) == Slots(workers) - {j} && j in Slots(workers)
  {}

  lemma CallerCounts(tags: seq<string>, s: Sys, skip: bool)
    requires Enabled(tags, s, CallerMoves(skip)) && InvCounts(tags, s)
    requires s.main.Added? ==> s.main.i !in s.workers
    ensures InvCounts(tags, CallerStep(tags, s, skip))
  {
    if s.main.Added? {
      SlotsWith(s.workers, s.main.i, Probing);
      assert s.main.i !in Slots(s.workers);
      assert s.workers[s.main.i := Probing].Keys == s.workers.Keys + {s.main.i};
    }
  }

  /** A worker that moves on without giving up its slot. */
  lemma SameCounts(tags: seq<string>, s: Sys, n: Sys, j: nat)
    requires InvCounts(tags, s) && j in s.workers && j in n.workers
    requires !s.workers[j].Finishing? && !n.workers[j].Finishing? && n.workers == s.workers[j := n.workers[j]]
    requires n.main == s.main && n.sem == s.sem && n.wg == s.wg
    ensures InvCounts(tags, n)
  {
    SlotsWith(s.workers, j, n.workers[j]);
    assert Slots(s.workers) + {j} == Slots(s.workers);
    assert n.workers.Keys == s.workers.Keys;
  }

  lemma ReleasingCounts(tags: seq<string>, s: Sys, j: nat)
    requires InvCounts(tags, s) && j in s.workers && s.workers[j].Releasing? && s.sem > 0
    ensures InvCounts(tags, s.(sem := s.sem - 1, workers := s.workers[j := Finishing]))
  {
    SlotsWithout(s.workers, j);
    assert s.workers[j := Finishing].Keys == s.workers.Keys;
  }

  lemma FinishingCounts(tags: seq<string>, s: Sys, j: nat)
    requires InvCounts(tags, s) && j in s.workers && s.workers[j].Finishing? && s.wg > 0
    ensures InvCounts(tags, s.(wg := s.wg - 1, workers := s.workers - {j}))
  {
    var left := s.workers - {j};
    assert Slots(left) == Slots(s.workers);
    assert left.Keys == s.workers.Keys - {j};
  }

  lemma WorkerCounts(tags: seq<string>, s: Sys, j: nat, delay: int)
    requires Enabled(tags, s, WorkerMoves(j, delay)) && InvCounts(tags, s)
    ensures InvCounts(tags, WorkerStep(tags, s, j, delay))
  {
    if s.workers[j].Finishing? {
      FinishingCounts(tags, s, j);
    } else if s.workers[j].Releasing? {
      ReleasingCounts(tags, s, j);
    } else {
      SameCounts(tags, s, WorkerStep(tags, s, j, delay), j);
    }
  }

  lemma CountsKept(tags: seq<string>, s: Sys, a: Step)
    requires Enabled(tags, s, a) && InvCounts(tags, s) && InvMembers(tags, s)
    ensures InvCounts(tags, Do(tags, s, a))
  {
    match a
    case Cancelled =>
    case CallerMoves(skip) => CallerCounts(tags, s, skip);
    case WorkerMoves(j, delay) => WorkerCounts(tags, s, j, delay);
  }

  lemma MutexKept(tags: seq<string>, s: Sys, a: Step)
    requires Enabled(tags, s, a) && InvMutex(s) && InvMembers(tags, s)
    ensures InvMutex(Do(tags, s, a))
  {}

  lemma CallerMembers(tags: seq<string>, s: Sys, skip: bool)
    requires Enabled(tags, s, CallerMoves(skip)) && InvMembers(tags, s)
    ensures InvMembers(tags, CallerStep(tags, s, skip))
  {
    CallerPlaces(tags, s, skip);
    CallerRecords(tags, s, skip);
  }

  lemma CallerPlaces(tags: seq<string>, s: Sys, skip: bool)
    requires Enabled(tags, s, CallerMoves(skip)) && InvPlaces(tags, s)
    ensures InvPlaces(tags, CallerStep(tags, s, skip))
  {}

  lemma CallerRecords(tags: seq<string>, s: Sys, skip: bool)
    requires Enabled(tags, s, CallerMoves(skip)) && InvMembers(tags, s)
    ensures InvRecords(tags, CallerStep(tags, s, skip))
  {}

  lemma WorkerMembers(tags: seq<string>, s: Sys, j: nat, delay: int)
    requires Enabled(tags, s, WorkerMoves(j, delay)) && InvMembers(tags, s)
    ensures InvMembers(tags, WorkerStep(tags, s, j, delay))
  {}

  lemma MembersKept(tags: seq<string>, s: Sys, a: Step)
    requires Enabled(tags, s, a) && InvMembers(tags, s)
    ensures InvMembers(tags, Do(tags, s, a))
  {
    match a
    case Cancelled =>
    case CallerMoves(skip) => CallerMembers(tags, s, skip);
    case WorkerMoves(j, delay) => WorkerMembers(tags, s, j, delay);
  }

  /** What was written stays written, with the same value; and a step writes at most one member. */
  lemma WrittenKept(tags: seq<string>, s: Sys, a: Step, j: nat)
    requires Enabled(tags, s, a) && InvMembers(tags, s)
    ensures Written(s, j) ==> Written(Do(tags, s, a), j) && Value(Do(tags, s, a), j) == Value(s, j)
  {}

  lemma ResultKept(tags: seq<string>, s: Sys, a: Step, tag: string)
    requires Enabled(tags, s, a) && InvMembers(tags, s) && InvResults(tags, s) && tag in Do(tags, s, a).results
    ensures var n := Do(tags, s, a);
            exists j :: 0 <= j < |tags| && tags[j] == tag && Written(n, j) && n.results[tag] == Value(n, j)
  {
    var n := Do(tags, s, a);
    if tag in s.results && n.results[tag] == s.results[tag] {
      var j :| 0 <= j < |tags| && tags[j] == tag && Written(s, j) && s.results[tag] == Value(s, j);
      WrittenKept(tags, s, a, j);
    } else if a.CallerMoves? {
      assert Written(n, s.main.i);
    } else {
      assert Written(n, a.j);
    }
  }

  lemma CallerGrows(tags: seq<string>, s: Sys, skip: bool, j: nat)
    requires Enabled(tags, s, CallerMoves(skip)) && InvMembers(tags, s)
    ensures s.results.Keys <= CallerStep(tags, s, skip).results.Keys
    ensures j < |tags| && Written(CallerStep(tags, s, skip), j) && !Written(s, j) ==>
            tags[j] in CallerStep(tags, s, skip).results
  {}

  lemma WorkerGrows(tags: seq<string>, s: Sys, i: nat, delay: int, j: nat)
    requires Enabled(tags, s, WorkerMoves(i, delay)) && InvMembers(tags, s)
    ensures s.results.Keys <= WorkerStep(tags, s, i, delay).results.Keys
    ensures j < |tags| && Written(WorkerStep(tags, s, i, delay), j) && !Written(s, j) ==>
            tags[j] in WorkerStep(tags, s, i, delay).results
  {}

  /** A step adds to the results, and writes only the member it is at. */
  lemma ResultsGrow(tags: seq<string>, s: Sys, a: Step, j: nat)
    requires Enabled(tags, s, a) && InvMembers(tags, s)
    ensures s.results.Keys <= Do(tags, s, a).results.Keys
    ensures j < |tags| && Written(Do(tags, s, a), j) && !Written(s, j) ==> tags[j] in Do(tags, s, a).results
  {
    hide CallerStep, WorkerStep, Enabled, InvMembers;
    match a
    case Cancelled =>
    case CallerMoves(skip) => CallerGrows(tags, s, skip, j);
    case WorkerMoves(i, delay) => WorkerGrows(tags, s, i, delay, j);
  }

  lemma ResultsKept(tags: seq<string>, s: Sys, a: Step)
    requires Enabled(tags, s, a) && InvMembers(tags, s) && InvResults(tags, s)
    ensures InvResults(tags, Do(tags, s, a))
  {
    hide InvMembers, Enabled, Do, Written, Value;
    var n := Do(tags, s, a);
    forall j | 0 <= j < |tags| && Written(n, j) ensures tags[j] in n.results { ResultsGrow(tags, s, a, j); }
    forall tag | tag in n.results
      ensures exists j :: 0 <= j < |tags| && tags[j] == tag && Written(n, j) && n.results[tag] == Value(n, j)
    {
      ResultKept(tags, s, a, tag);
    }
  }

  lemma InvStep(tags: seq<string>, s: Sys, a: Step)
    requires Enabled(tags, s, a) && Inv(tags, s)
    ensures Inv(tags, Do(tags, s, a))
  {
    hide InvCounts, InvMutex, InvMembers, InvResults, Do;
    CountsKept(tags, s, a);
    MutexKept(tags, s, a);
    MembersKept(tags, s, a);
    ResultsKept(tags, s, a);
  }

  lemma {:induction false} InvAlong(tags: seq<string>, s: Sys, steps: seq<Step>)
    requires Inv(tags, s) && Runnable(tags, s, steps)
    ensures Inv(tags, After(tags, s, steps))
    decreases |steps|
  {
    hide Inv, Do, Enabled;
    if steps != [] {
      InvStep(tags, s, steps[0]);
      InvAlong(tags, Do(tags, s, steps[0]), steps[1..]);
    }
  }

  // ---- what follows ----

  /** At most 16 probes are in flight, at any moment of any run. */
  lemma AtMostSixteenProbes(tags: seq<string>, steps: seq<Step>)
    requires Runnable(tags, ENTERED, steps)
    ensures |Slots(After(tags, ENTERED, steps).workers)| <= 16
  {
    InvAlong(tags, ENTERED, steps);
  }

  /** No worker ever finds the semaphore empty when it releases its slot, or the wait group at zero when it is done. */
  lemma ReleasesNeverFail(tags: seq<string>, steps: seq<Step>, j: nat)
    requires Runnable(tags, ENTERED, steps) && j in After(tags, ENTERED, steps).workers
    ensures var s := After(tags, ENTERED, steps);
            s.wg > 0 && (!s.workers[j].Finishing? ==> s.sem > 0)
  {
    InvAlong(tags, ENTERED, steps);
    var s := After(tags, ENTERED, steps);
    assert j in s.workers.Keys;
    assert !s.workers[j].Finishing? ==> j in Slots(s.workers);
  }

  lemma OwnerIs(o: Option<Owner>)
    ensures o == None || o == Some(Caller) || exists j: nat :: o == Some(Member(j))
  {
    if o.Some? && o.value.Member? { assert o == Some(Member(o.value.j)); }
  }

  /** When the call returns no goroutine is left, the semaphore and the mutex are free, and the result names exactly
      the members; each value is one a member of that tag contributed: its probe's delay, or -1 where it was skipped,
      which happens only after cancellation. */
  lemma ReturnIsComplete(tags: seq<string>, steps: seq<Step>)
    requires Runnable(tags, ENTERED, steps) && After(tags, ENTERED, steps).main.Returned?
    ensures var s := After(tags, ENTERED, steps);
            && s.workers == map[] && s.sem == 0 && s.wg == 0 && s.mu == None
            && (forall tag :: tag in s.results <==> tag in tags)
            && (forall tag :: tag in s.results ==>
                  exists j :: 0 <= j < |tags| && tags[j] == tag && s.results[tag] == Value(s, j))
            && (forall j :: 0 <= j < |tags| && j !in s.probed ==> s.cancelled)
  {
    InvAlong(tags, ENTERED, steps);
    var s := After(tags, ENTERED, steps);
    assert Slots(map[]) == {};
    assert forall j: nat :: s.mu != Some(Member(j));
    OwnerIs(s.mu);
    forall j | 0 <= j < |tags| ensures Written(s, j) && tags[j] in s.results {}
  }

  /** With distinct members each value is exactly that member's own. */
  lemma EachGetsItsOwn(tags: seq<string>, steps: seq<Step>, j: nat)
    requires NoDup(tags) && j < |tags|
    requires Runnable(tags, ENTERED, steps) && After(tags, ENTERED, steps).main.Returned?
    ensures var s := After(tags, ENTERED, steps);
            tags[j] in s.results && s.results[tags[j]] == Value(s, j)
  {
    ReturnIsComplete(tags, steps);
    var s := After(tags, ENTERED, steps);
    var k :| 0 <= k < |tags| && tags[k] == tags[j] && s.results[tags[j]] == Value(s, k);
    assert k == j;
  }

  // ---- the call returns ----

  /** Steps a worker has left, and at most how many the caller has, those of the workers it will launch included. */
  function WorkerLeft(w: Worker): nat {
    match w
    case Probing => 6
    case Locking(_) => 5
    case Storing(_) => 4
    case Unlocking => 3
    case Releasing => 2
    case Finishing => 1
  }

  function MainLeft(tags: seq<string>, main: Main): int {
    match main
    case Select(i) => 10 * (|tags| - i) + 2
    case SkipLock(i) => 10 * (|tags| - i) + 1
    case SkipWrite(i) => 10 * (|tags| - i)
    case SkipUnlock(i) => 10 * (|tags| - i) - 1
    case Slotted(i) => 10 * (|tags| - i) + 1
    case Added(i) => 10 * (|tags| - i)
    case Waiting => 1
    case Returned => 0
  }

  /** Steps the workers of the first n members have left. */
  function WorkersLeft(workers: map<nat, Worker>, n: nat): nat {
    if n == 0 then 0
    else WorkersLeft(workers, n - 1) + if n - 1 in workers then WorkerLeft(workers[n - 1]) else 0
  }

  function Left(tags: seq<string>, s: Sys): int { MainLeft(tags, s.main) + WorkersLeft(s.workers, |tags|) }

  lemma {:induction false} OtherWorkers(one: map<nat, Worker>, two: map<nat, Worker>, n: nat)
    requires forall k :: 0 <= k < n ==> (k in one <==> k in two) && (k in one ==> one[k] == two[k])
    ensures WorkersLeft(one, n) == WorkersLeft(two, n)
  {
    if n > 0 { OtherWorkers(one, two, n - 1); }
  }

  function LeftOf(workers: map<nat, Worker>, j: nat): nat { if j in workers then WorkerLeft(workers[j]) else 0 }

  lemma {:induction false} OneWorker(one: map<nat, Worker>, two: map<nat, Worker>, j: nat, n: nat)
    requires j < n
    requires forall k :: 0 <= k < n && k != j ==> (k in one <==> k in two) && (k in one ==> one[k] == two[k])
    ensures WorkersLeft(two, n) == WorkersLeft(one, n) - LeftOf(one, j) + LeftOf(two, j)
  {
    if n - 1 == j { OtherWorkers(one, two, n - 1); } else { OneWorker(one, two, j, n - 1); }
  }

  lemma CallerLeavesLess(tags: seq<string>, s: Sys, skip: bool)
    requires Enabled(tags, s, CallerMoves(skip)) && InvPlaces(tags, s)
    ensures Left(tags, CallerStep(tags, s, skip)) < Left(tags, s)
  {
    if s.main.Added? { OneWorker(s.workers, s.workers[s.main.i := Probing], s.main.i, |tags|); }
  }

  lemma WorkerLeavesLess(tags: seq<string>, s: Sys, j: nat, delay: int)
    requires Enabled(tags, s, WorkerMoves(j, delay)) && InvPlaces(tags, s)
    ensures Left(tags, WorkerStep(tags, s, j, delay)) < Left(tags, s)
  {
    var n := WorkerStep(tags, s, j, delay);
    assert n.main == s.main && LeftOf(n.workers, j) < LeftOf(s.workers, j);
    assert forall k :: k != j ==>
             (k in n.workers <==> k in s.workers) && (k in n.workers ==> n.workers[k] == s.workers[k]);
    hide WorkerStep, WorkerLeft, LeftOf;
    OneWorker(s.workers, n.workers, j, |tags|);
  }

  /** Every step but a cancellation leaves less to do. */
  lemma StepLeavesLess(tags: seq<string>, s: Sys, a: Step)
    requires Enabled(tags, s, a) && InvMembers(tags, s)
    ensures if a.Cancelled? then Left(tags, Do(tags, s, a)) == Left(tags, s)
            else Left(tags, Do(tags, s, a)) < Left(tags, s)
  {
    hide CallerStep, WorkerStep, Enabled, InvPlaces;
    match a
    case Cancelled =>
    case CallerMoves(skip) => CallerLeavesLess(tags, s, skip);
    case WorkerMoves(j, delay) => WorkerLeavesLess(tags, s, j, delay);
  }

  function Taken(steps: seq<Step>): nat {
    if steps == [] then 0 else (if steps[0].Cancelled? then 0 else 1) + Taken(steps[1..])
  }

  lemma {:induction false} TakenAlong(tags: seq<string>, s: Sys, steps: seq<Step>)
    requires Inv(tags, s) && Runnable(tags, s, steps)
    ensures Taken(steps) + Left(tags, After(tags, s, steps)) <= Left(tags, s)
    decreases |steps|
  {
    if steps != [] {
      StepLeavesLess(tags, s, steps[0]);
      InvStep(tags, s, steps[0]);
      hide Inv, Left, Do, Enabled;
      TakenAlong(tags, Do(tags, s, steps[0]), steps[1..]);
    }
  }

  /** Until the call returns some operation other than a cancellation is possible. */
  lemma SomethingMoves(tags: seq<string>, s: Sys) returns (a: Step)
    requires Inv(tags, s) && !s.main.Returned?
    ensures !a.Cancelled? && Enabled(tags, s, a)
  {
    if s.mu == Some(Caller) {
      a := CallerMoves(false);
    } else if s.mu.Some? {
      a := WorkerMoves(s.mu.value.j, 0);
    } else if s.workers != map[] {
      var j :| j in s.workers;
      a := WorkerMoves(j, 0);
      assert j in s.workers.Keys;
      assert !s.workers[j].Finishing? ==> j in Slots(s.workers);
    } else {
      a := CallerMoves(false);
      assert Slots(map[]) == {};
    }
  }

  /** A call for n members takes at most 10n + 2 steps, goroutines included, and is never stuck before it returns: so it
      returns, whatever the interleaving. */
  lemma CallReturns(tags: seq<string>, steps: seq<Step>)
    requires Runnable(tags, ENTERED, steps)
    ensures Taken(steps) <= 10 * |tags| + 2
    ensures var s := After(tags, ENTERED, steps);
            s.main.Returned? || exists a: Step :: !a.Cancelled? && Enabled(tags, s, a)
  {
    InvAlong(tags, ENTERED, steps);
    TakenAlong(tags, ENTERED, steps);
    NoWorkers(|tags|);
    var s := After(tags, ENTERED, steps);
    LeftIsPositive(tags, s);
    if !s.main.Returned? { var a := SomethingMoves(tags, s); }
  }

  lemma {:induction false} NoWorkers(n: nat)
    ensures WorkersLeft(map[], n) == 0
  {
    if n > 0 { NoWorkers(n - 1); }
  }

  lemma LeftIsPositive(tags: seq<string>, s: Sys)
    requires InvPlaces(tags, s)
    ensures Left(tags, s) >= 0
  {}
}
