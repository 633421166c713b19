/** Nothing that is to be sent goes missing: a request that was read is answered, a notice goes to the connection that
    was active, as long as the connection does not break, and a cancellation closes it. What is owed is recorded along
    a run from its steps alone: what was read, raised and cancelled, and what the next move of the same thread found. */
module IpcAnswers {
  import opened Basics
  import opened IpcProtocol
  import opened IpcTheorems

  /** Requests whose response could not be marshalled; the threads that have raised an event, and how often which
      notice has become due on which connection; the threads that are to cancel, and the connections to be closed;
      and the connections on which a write has failed. */
  datatype Record = Record(unmarshalled: set<(ConnId, nat)>, raised: map<Tid, string>,
                           due: multiset<(ConnId, string)>, cancelling: set<Tid>, toClose: set<ConnId>,
                           failed: set<ConnId>)

  const NO_RECORD := Record({}, map[], multiset{}, {}, {}, {})

  /** The thread is about to write to a socket that has taken everything so far. */
  predicate Writes(s: Sys, t: Tid) {
    t in s.threads && s.threads[t].Emitting? && Exists(s, s.threads[t].c)
    && !s.conns[s.threads[t].c].broken && s.conns[s.threads[t].c].pending != ""
  }

  /** A move of a goroutine: one that raised an event or cancels now looks at `active`. */
  function MovedIn(s: Sys, t: Tid, ok: bool, h: Record): Record {
    if t in h.raised then
      h.(raised := h.raised - {t},
         due := if ok && s.active.Some? then h.due + multiset{(s.active.value, h.raised[t])} else h.due)
    else if t in h.cancelling then
      h.(cancelling := h.cancelling - {t},
         toClose := if s.active.Some? then h.toClose + {s.active.value} else h.toClose)
    else if t in s.threads && s.threads[t].Handling? && !ok then
      h.(unmarshalled := h.unmarshalled + {(s.threads[t].c, s.threads[t].k)})
    else if Writes(s, t) && !ok then h.(failed := h.failed + {s.threads[t].c})
    else h
  }

  function RecordedIn(s: Sys, a: Step, h: Record): Record {
    match a
    case Event(t, body) => h.(raised := h.raised[t := body])
    case Cancel(t) => h.(cancelling := h.cancelling + {t})
    case Move(t, _, ok, _) => MovedIn(s, t, ok, h)
    case _ => h
  }

  ghost function RecordAfter(codec: Codec, s: Sys, h: Record, steps: seq<Step>): Record
    requires Runnable(codec, s, steps)
    decreases |steps|
  {
    if steps == [] then h
    else RecordAfter(codec, Do(codec, s, steps[0]), RecordedIn(s, steps[0], h), steps[1..])
  }

  // ---- the record and the threads ----

  /** Who has raised an event, or is to cancel, is about to look at `active`. */
  ghost predicate InvPending(s: Sys, h: Record) {
    && (forall t: Tid :: t in h.raised <==> t in s.threads && s.threads[t].Loading?)
    && (forall t: Tid :: t in h.raised ==> s.threads[t] == Loading(h.raised[t]))
    && (forall t: Tid :: t in h.cancelling <==> t in s.threads && s.threads[t].CancelLoad?)
  }

  /** What a step does to one thread that is about to look at `active`. */
  lemma PendingThread(codec: Codec, s: Sys, h: Record, a: Step, t: Tid)
    requires Enabled(s, a) && InvPending(s, h)
    ensures var n, m := Do(codec, s, a), RecordedIn(s, a, h);
            && (t in m.raised <==> t in n.threads && n.threads[t].Loading?)
            && (t in m.raised ==> n.threads[t] == Loading(m.raised[t]))
            && (t in m.cancelling <==> t in n.threads && n.threads[t].CancelLoad?)
  {}

  lemma PendingKept(codec: Codec, s: Sys, h: Record, a: Step)
    requires Enabled(s, a) && InvPending(s, h)
    ensures InvPending(Do(codec, s, a), RecordedIn(s, a, h))
  {
    forall t: Tid
      ensures var n, m := Do(codec, s, a), RecordedIn(s, a, h);
              && (t in m.raised <==> t in n.threads && n.threads[t].Loading?)
              && (t in m.raised ==> n.threads[t] == Loading(m.raised[t]))
              && (t in m.cancelling <==> t in n.threads && n.threads[t].CancelLoad?)
    {
      PendingThread(codec, s, h, a, t);
      hide Do, RecordedIn;
    }
  }

  // ---- requests ----

  predicate OwedBy(s: Sys, t: Tid, c: ConnId, k: nat) { t in s.threads && Owes(s.threads[t], c) == Some(k) }

  ghost predicate Owed(s: Sys, c: ConnId, k: nat) { exists t: Tid :: OwedBy(s, t, c, k) }

  /** A response to request k has been begun. */
  ghost predicate Answered(conn: Conn, k: nat) {
    exists i :: 0 <= i < |conn.sent| && conn.sent[i].origin == Some(k)
  }

  /** Every request with an id is owed, answered, or could not be marshalled, and only one of these. */
  ghost predicate InvRequests(s: Sys, h: Record) {
    && (forall c, k ::
          0 <= c < |s.conns| && 0 <= k < |s.conns[c].reqs| && s.conns[c].reqs[k].Some? && !s.conns[c].broken ==>
          Owed(s, c, k) || Answered(s.conns[c], k) || (c, k) in h.unmarshalled)
    && (forall c, k :: (c, k) in h.unmarshalled ==> Exists(s, c) && k < |s.conns[c].reqs| && s.conns[c].reqs[k].Some?)
    && (forall c, k :: (c, k) in h.unmarshalled ==> !Owed(s, c, k) && !Answered(s.conns[c], k))
  }

  lemma BrokenStays(codec: Codec, s: Sys, a: Step, c: ConnId)
    requires Enabled(s, a) && Exists(s, c) && s.conns[c].broken
    ensures Exists(Do(codec, s, a), c) && Do(codec, s, a).conns[c].broken
  {}

  /** A thread that owes an answer goes on owing it, begins it, gives it up, or finds the connection broken. */
  lemma OwingGoesOn(codec: Codec, s: Sys, a: Step, c: ConnId, k: nat, t: Tid)
    requires Enabled(s, a) && Exists(s, c) && OwedBy(s, t, c, k) && !Do(codec, s, a).conns[c].broken
    ensures var n := Do(codec, s, a);
            OwedBy(n, t, c, k) || Answered(n.conns[c], k) || (a.Move? && a.t == t && s.threads[t].Handling? && !a.ok)
  {
    var n := Do(codec, s, a);
    if a.Move? && a.t == t && s.threads[t].Begin? && !OwedBy(n, t, c, k) {
      var sent := n.conns[c].sent;
      assert sent[|sent| - 1] == s.threads[t].msg;
    }
  }

  lemma AnsweredStays(codec: Codec, s: Sys, a: Step, c: ConnId, k: nat)
    requires Enabled(s, a) && Exists(s, c) && Answered(s.conns[c], k)
    ensures Exists(Do(codec, s, a), c) && Answered(Do(codec, s, a).conns[c], k)
  {
    SentGrows(codec, s, a, c);
    var i :| 0 <= i < |s.conns[c].sent| && s.conns[c].sent[i].origin == Some(k);
    assert Do(codec, s, a).conns[c].sent[i].origin == Some(k);
  }

  /** The requests of a connection: those it had, and the one just read. */
  lemma RequestsAfter(codec: Codec, s: Sys, a: Step, c: ConnId)
    requires Enabled(s, a) && Exists(Do(codec, s, a), c)
    ensures var n := Do(codec, s, a);
            if !Exists(s, c) then n.conns[c].reqs == []
            else if a.Read? && s.loop.c == c then n.conns[c].reqs == s.conns[c].reqs + [a.id]
                                                  && (a.id.Some? ==> OwedBy(n, a.t, c, |s.conns[c].reqs|))
            else n.conns[c].reqs == s.conns[c].reqs
  {}

  lemma RequestKept(codec: Codec, s: Sys, h: Record, a: Step, c: ConnId, k: nat)
    requires Enabled(s, a) && InvPending(s, h) && InvRequests(s, h) && Exists(Do(codec, s, a), c)
    requires var conn := Do(codec, s, a).conns[c]; k < |conn.reqs| && conn.reqs[k].Some? && !conn.broken
    ensures var n := Do(codec, s, a);
            Owed(n, c, k) || Answered(n.conns[c], k) || (c, k) in RecordedIn(s, a, h).unmarshalled
  {
    var n := Do(codec, s, a);
    RequestsAfter(codec, s, a, c);
    if Exists(s, c) && k < |s.conns[c].reqs| {
      if s.conns[c].broken { BrokenStays(codec, s, a, c); }
      if t: Tid :| OwedBy(s, t, c, k) {
        OwingGoesOn(codec, s, a, c, k, t);
      } else if Answered(s.conns[c], k) {
        AnsweredStays(codec, s, a, c, k);
      }
    }
  }

  /** Whoever owes an answer to an old request owed it before. */
  lemma OwedBefore(codec: Codec, s: Sys, a: Step, c: ConnId, k: nat) returns (t: Tid)
    requires Enabled(s, a) && Exists(s, c) && k < |s.conns[c].reqs| && Owed(Do(codec, s, a), c, k)
    ensures OwedBy(s, t, c, k) && !(a.Move? && a.t == t && s.threads[t].Handling? && !a.ok)
  {
    t :| OwedBy(Do(codec, s, a), t, c, k);
    OwesKept(codec, s, a, t, c);
  }

  /** A response is begun by whoever owes it. */
  lemma AnsweredBefore(codec: Codec, s: Sys, a: Step, c: ConnId, k: nat)
    requires Enabled(s, a) && Exists(s, c)
    requires Exists(Do(codec, s, a), c) && Answered(Do(codec, s, a).conns[c], k)
    ensures Answered(s.conns[c], k) || (a.Move? && OwedBy(s, a.t, c, k) && !s.threads[a.t].Handling?)
  {
    SentGrows(codec, s, a, c);
    var sent := Do(codec, s, a).conns[c].sent;
    var i :| 0 <= i < |sent| && sent[i].origin == Some(k);
    assert i < |s.conns[c].sent| ==> s.conns[c].sent[i].origin == Some(k);
  }

  /** What was given up stays given up. */
  lemma GivenUpStays(codec: Codec, s: Sys, h: Record, a: Step, c: ConnId, k: nat)
    requires Enabled(s, a) && InvAnswers(s) && InvRequests(s, h) && (c, k) in RecordedIn(s, a, h).unmarshalled
    ensures var n := Do(codec, s, a);
            && Exists(n, c) && k < |n.conns[c].reqs| && n.conns[c].reqs[k].Some?
            && !Owed(n, c, k) && !Answered(n.conns[c], k)
  {
    var n := Do(codec, s, a);
    if (c, k) !in h.unmarshalled { assert OwedBy(s, a.t, c, k) && FitsThread(s, s.threads[a.t]); }
    RequestsGrow(codec, s, a, c);
    if Owed(n, c, k) { var t := OwedBefore(codec, s, a, c, k); }
    if Answered(n.conns[c], k) { AnsweredBefore(codec, s, a, c, k); }
  }

  lemma RequestsKept(codec: Codec, s: Sys, h: Record, a: Step)
    requires Enabled(s, a) && InvAnswers(s) && InvPending(s, h) && InvRequests(s, h)
    ensures InvRequests(Do(codec, s, a), RecordedIn(s, a, h))
  {
    var n, m := Do(codec, s, a), RecordedIn(s, a, h);
    forall c, k | 0 <= c < |n.conns| && 0 <= k < |n.conns[c].reqs| && n.conns[c].reqs[k].Some? && !n.conns[c].broken
      ensures Owed(n, c, k) || Answered(n.conns[c], k) || (c, k) in m.unmarshalled
    {
      RequestKept(codec, s, h, a, c, k);
    }
    forall c, k | (c, k) in m.unmarshalled
      ensures Exists(n, c) && k < |n.conns[c].reqs| && n.conns[c].reqs[k].Some?
      ensures !Owed(n, c, k) && !Answered(n.conns[c], k)
    {
      GivenUpStays(codec, s, h, a, c, k);
    }
  }

  // ---- notices ----

  function NoticeOf(body: string): Sent { Sent(Notice(body), None) }

  predicate Carries(s: Sys, t: Tid, c: ConnId, body: string) {
    t in s.threads && (s.threads[t] == Waiting(c, NoticeOf(body)) || s.threads[t] == Begin(c, NoticeOf(body)))
  }

  /** The threads that are to send that notice on connection c. */
  function Carriers(s: Sys, c: ConnId, body: string): set<Tid> {
    set t | t in s.threads && Carries(s, t, c, body)
  }

  function SentOn(s: Sys, c: ConnId): seq<Sent> { if Exists(s, c) then s.conns[c].sent else [] }

  predicate IsBroken(s: Sys, c: ConnId) { Exists(s, c) && s.conns[c].broken }

  /** How often the notice was begun, and how often it is still to be. */
  function Delivered(s: Sys, c: ConnId, body: string): nat {
    multiset(SentOn(s, c))[NoticeOf(body)] + |Carriers(s, c, body)|
  }

  ghost predicate InvNotices(s: Sys, h: Record) {
    forall c, body: string :: !IsBroken(s, c) ==> Delivered(s, c, body) == h.due[(c, body)]
  }

  /** A move changes only what the moving thread carries. */
  lemma CarriersMoved(codec: Codec, s: Sys, a: Step, c: ConnId, body: string)
    requires Enabled(s, a)
    ensures var n := Do(codec, s, a);
            Carriers(n, c, body) ==
            if !a.Move? then Carriers(s, c, body)
            else Carriers(s, c, body) - {a.t} + (if Carries(n, a.t, c, body) then {a.t} else {})
  {
    var n := Do(codec, s, a);
    forall t: Tid | !(a.Move? && a.t == t) ensures Carries(n, t, c, body) <==> Carries(s, t, c, body) {}
  }

  lemma SentMoved(codec: Codec, s: Sys, a: Step, c: ConnId)
    requires Enabled(s, a)
    ensures var n := Do(codec, s, a);
            SentOn(n, c) ==
            if a.Move? && Exists(s, c) && s.threads[a.t].Begin? && s.threads[a.t].c == c && !s.conns[c].broken
            then SentOn(s, c) + [s.threads[a.t].msg] else SentOn(s, c)
  {}

  function One(b: bool): nat { if b then 1 else 0 }

  /** The moving thread begins that notice. */
  predicate Begins(s: Sys, a: Step, c: ConnId, body: string) {
    a.Move? && Exists(s, c) && a.t in s.threads && s.threads[a.t] == Begin(c, NoticeOf(body)) && !s.conns[c].broken
  }

  /** A move takes a notice from being due to being carried, or from being carried to being begun. */
  lemma NoticeMoves(codec: Codec, s: Sys, h: Record, a: Step, c: ConnId, body: string)
    requires Enabled(s, a) && InvPending(s, h) && a.Move? && !IsBroken(s, c)
    ensures var n := Do(codec, s, a);
            One(Carries(n, a.t, c, body)) + One(Begins(s, a, c, body)) + h.due[(c, body)] ==
            One(Carries(s, a.t, c, body)) + RecordedIn(s, a, h).due[(c, body)]
  {}

  lemma BegunMoved(codec: Codec, s: Sys, a: Step, c: ConnId, body: string)
    requires Enabled(s, a)
    ensures multiset(SentOn(Do(codec, s, a), c))[NoticeOf(body)] ==
            multiset(SentOn(s, c))[NoticeOf(body)] + One(Begins(s, a, c, body))
  {
    SentMoved(codec, s, a, c);
  }

  lemma CountMoved(carriers: set<Tid>, t: Tid, now: bool)
    ensures |carriers - {t} + (if now then {t} else {})| + One(t in carriers) == |carriers| + One(now)
  {}

  lemma NoticeKept(codec: Codec, s: Sys, h: Record, a: Step, c: ConnId, body: string)
    requires Enabled(s, a) && InvPending(s, h) && InvNotices(s, h) && !IsBroken(Do(codec, s, a), c)
    ensures Delivered(Do(codec, s, a), c, body) == RecordedIn(s, a, h).due[(c, body)]
  {
    if IsBroken(s, c) { BrokenStays(codec, s, a, c); }
    CarriersMoved(codec, s, a, c, body);
    BegunMoved(codec, s, a, c, body);
    if a.Move? {
      NoticeMoves(codec, s, h, a, c, body);
      hide Do, Enabled, InvPending, Carries;
      CountMoved(Carriers(s, c, body), a.t, Carries(Do(codec, s, a), a.t, c, body));
    }
  }

  lemma NoticesKept(codec: Codec, s: Sys, h: Record, a: Step)
    requires Enabled(s, a) && InvPending(s, h) && InvNotices(s, h)
    ensures InvNotices(Do(codec, s, a), RecordedIn(s, a, h))
  {
    var n, m := Do(codec, s, a), RecordedIn(s, a, h);
    forall c, body: string | !IsBroken(n, c) ensures Delivered(n, c, body) == m.due[(c, body)] {
      NoticeKept(codec, s, h, a, c, body);
    }
  }

  // ---- what closes and what breaks a connection ----

  /** The accept loop is not done with the connection. */
  predicate InHand(loop: Loop, c: ConnId) {
    loop == Accepted(c) || loop == Reading(c) || loop == Leaving(c) || loop == Closing(c)
  }

  /** A cancelled connection is closed or about to be; one the loop is not done with is closed only by cancelling. */
  ghost predicate InvCancelled(s: Sys, h: Record) {
    && (forall c :: c in h.toClose ==>
          Exists(s, c) && (s.conns[c].closed || exists t: Tid :: t in s.threads && s.threads[t] == CancelClose(c)))
    && (forall t: Tid :: t in s.threads && s.threads[t].CancelClose? ==> s.threads[t].c in h.toClose)
    && (forall c :: 0 <= c < |s.conns| && s.conns[c].closed && InHand(s.loop, c) ==> c in h.toClose)
  }

  lemma CancelledKept(codec: Codec, s: Sys, h: Record, a: Step)
    requires Enabled(s, a) && InvLoop(s) && InvPending(s, h) && InvCancelled(s, h)
    ensures InvCancelled(Do(codec, s, a), RecordedIn(s, a, h))
  {
    var n, m := Do(codec, s, a), RecordedIn(s, a, h);
    forall c | c in m.toClose
      ensures Exists(n, c) && (n.conns[c].closed || exists t: Tid :: t in n.threads && n.threads[t] == CancelClose(c))
    {
      StillToClose(codec, s, h, a, c);
    }
    CancellersMoved(codec, s, h, a);
    forall c | 0 <= c < |n.conns| && n.conns[c].closed && InHand(n.loop, c) ensures c in m.toClose {
      ClosedBefore(codec, s, a, c);
      hide Do, InHand;
    }
  }

  lemma CancellersMoved(codec: Codec, s: Sys, h: Record, a: Step)
    requires Enabled(s, a) && InvPending(s, h) && InvCancelled(s, h)
    ensures var n := Do(codec, s, a);
            forall t: Tid :: t in n.threads && n.threads[t].CancelClose? ==>
              n.threads[t].c in RecordedIn(s, a, h).toClose
    ensures h.toClose <= RecordedIn(s, a, h).toClose
  {}

  lemma StillToClose(codec: Codec, s: Sys, h: Record, a: Step, c: ConnId)
    requires Enabled(s, a) && InvLoop(s) && InvPending(s, h) && InvCancelled(s, h)
             && c in RecordedIn(s, a, h).toClose
    ensures var n := Do(codec, s, a);
            Exists(n, c) && (n.conns[c].closed || exists t: Tid :: t in n.threads && n.threads[t] == CancelClose(c))
  {
    var n := Do(codec, s, a);
    if c !in h.toClose {
      assert n.threads[a.t] == CancelClose(c);
    } else if s.conns[c].closed {
      ClosedIsSilent(codec, s, a, c);
    } else {
      var t: Tid :| t in s.threads && s.threads[t] == CancelClose(c);
      assert !(a.Move? && a.t == t) ==> t in n.threads && n.threads[t] == CancelClose(c);
    }
  }

  /** A connection the loop is not done with was closed before, or is by a thread that cancels. */
  lemma ClosedBefore(codec: Codec, s: Sys, a: Step, c: ConnId)
    requires Enabled(s, a)
    requires var n := Do(codec, s, a); Exists(n, c) && n.conns[c].closed && InHand(n.loop, c)
    ensures Exists(s, c) && InHand(s.loop, c)
    ensures s.conns[c].closed || (a.Move? && s.threads[a.t] == CancelClose(c))
  {}

  /** Writing to a connection is broken off exactly once a write to its socket has failed. */
  ghost predicate InvFailed(s: Sys, h: Record) {
    && (forall c :: 0 <= c < |s.conns| ==> (s.conns[c].broken <==> c in h.failed))
    && (forall c :: c in h.failed ==> Exists(s, c))
  }

  lemma FailedKept(codec: Codec, s: Sys, h: Record, a: Step)
    requires Enabled(s, a) && InvPending(s, h) && InvFailed(s, h)
    ensures InvFailed(Do(codec, s, a), RecordedIn(s, a, h))
  {}

  // ---- along any run ----

  ghost predicate Fulfils(s: Sys, h: Record) {
    InvPending(s, h) && InvRequests(s, h) && InvNotices(s, h) && InvCancelled(s, h) && InvFailed(s, h)
  }

  lemma FulfilsKept(codec: Codec, s: Sys, h: Record, a: Step)
    requires Enabled(s, a) && Inv(codec, s) && Fulfils(s, h)
    ensures Fulfils(Do(codec, s, a), RecordedIn(s, a, h))
  {
    PendingKept(codec, s, h, a);
    RequestsKept(codec, s, h, a);
    NoticesKept(codec, s, h, a);
    CancelledKept(codec, s, h, a);
    FailedKept(codec, s, h, a);
  }

  lemma {:induction false} FulfilsAlong(codec: Codec, s: Sys, h: Record, steps: seq<Step>)
    requires Inv(codec, s) && Fulfils(s, h) && Runnable(codec, s, steps)
    ensures Fulfils(After(codec, s, steps), RecordAfter(codec, s, h, steps))
    decreases |steps|
  {
    if steps != [] {
      InvKept(codec, s, steps[0]);
      FulfilsKept(codec, s, h, steps[0]);
      hide Inv, Fulfils, Do, Enabled;
      FulfilsAlong(codec, Do(codec, s, steps[0]), RecordedIn(s, steps[0], h), steps[1..]);
    }
  }

  lemma ServerFulfils(codec: Codec, steps: seq<Step>)
    requires ServerRun(codec, steps)
    ensures Fulfils(After(codec, NEW_SERVER, steps), RecordAfter(codec, NEW_SERVER, NO_RECORD, steps))
  {
    assert forall c, body: string :: Carriers(NEW_SERVER, c, body) == {};
    FulfilsAlong(codec, NEW_SERVER, NO_RECORD, steps);
  }

  /** The ids of what was read from connection c, in order. */
  ghost function ReadFrom(codec: Codec, s: Sys, steps: seq<Step>, c: ConnId): seq<Option<int>>
    requires Runnable(codec, s, steps)
    decreases |steps|
  {
    if steps == [] then []
    else (if steps[0].Read? && s.loop == Reading(c) then [steps[0].id] else [])
         + ReadFrom(codec, Do(codec, s, steps[0]), steps[1..], c)
  }

  lemma {:induction false} ReadsAreKept(codec: Codec, s: Sys, steps: seq<Step>, c: ConnId)
    requires Runnable(codec, s, steps) && Exists(After(codec, s, steps), c)
    ensures After(codec, s, steps).conns[c].reqs ==
            (if Exists(s, c) then s.conns[c].reqs else []) + ReadFrom(codec, s, steps, c)
    decreases |steps|
  {
    if steps != [] {
      ReadsAreKept(codec, Do(codec, s, steps[0]), steps[1..], c);
      if Exists(Do(codec, s, steps[0]), c) { RequestsAfter(codec, s, steps[0], c); }
    }
  }

  /** A request with an id that was read from a connection that is not broken is still owed by a thread, has its
      response begun, or had one that could not be marshalled; never two of these. */
  lemma RequestsAreServed(codec: Codec, steps: seq<Step>, c: ConnId, k: nat)
    requires ServerRun(codec, steps) && Exists(After(codec, NEW_SERVER, steps), c)
    requires var conn := After(codec, NEW_SERVER, steps).conns[c]; k < |conn.reqs| && conn.reqs[k].Some?
    ensures var s := After(codec, NEW_SERVER, steps);
            var gaveUp := (c, k) in RecordAfter(codec, NEW_SERVER, NO_RECORD, steps).unmarshalled;
            && (!s.conns[c].broken ==> Owed(s, c, k) || Answered(s.conns[c], k) || gaveUp)
            && !(Owed(s, c, k) && Answered(s.conns[c], k)) && !(gaveUp && (Owed(s, c, k) || Answered(s.conns[c], k)))
  {
    ServerFulfils(codec, steps);
    InvAlong(codec, NEW_SERVER, steps);
  }

  /** So once no thread is left, exactly the requests whose response could be marshalled have one, and only one. */
  lemma AnsweredExactly(codec: Codec, steps: seq<Step>, c: ConnId, k: nat)
    requires ServerRun(codec, steps) && After(codec, NEW_SERVER, steps).threads == map[]
    requires Exists(After(codec, NEW_SERVER, steps), c) && !After(codec, NEW_SERVER, steps).conns[c].broken
    requires var conn := After(codec, NEW_SERVER, steps).conns[c]; k < |conn.reqs| && conn.reqs[k].Some?
    ensures var conn := After(codec, NEW_SERVER, steps).conns[c];
            && (Answered(conn, k) <==> (c, k) !in RecordAfter(codec, NEW_SERVER, NO_RECORD, steps).unmarshalled)
            && (forall i, j :: 0 <= i < j < |conn.sent| && conn.sent[i].origin == Some(k) ==>
                  conn.sent[j].origin != Some(k))
  {
    RequestsAreServed(codec, steps, c, k);
    InvAlong(codec, NEW_SERVER, steps);
    assert OnceEach(After(codec, NEW_SERVER, steps).conns[c]);
  }

  /** The requests a connection holds are exactly what was read from it, in order. */
  lemma RequestsAreReads(codec: Codec, steps: seq<Step>, c: ConnId)
    requires ServerRun(codec, steps) && Exists(After(codec, NEW_SERVER, steps), c)
    ensures After(codec, NEW_SERVER, steps).conns[c].reqs == ReadFrom(codec, NEW_SERVER, steps, c)
  {
    ReadsAreKept(codec, NEW_SERVER, steps, c);
  }

  /** Once no thread is left, every event has looked for a connection, and each that found one and could be marshalled
      has its notice begun there, once for every time it was due, unless that connection broke. */
  lemma NoticesAreSentExactly(codec: Codec, steps: seq<Step>, c: ConnId, body: string)
    requires ServerRun(codec, steps) && After(codec, NEW_SERVER, steps).threads == map[]
    requires Exists(After(codec, NEW_SERVER, steps), c)
    ensures var s, h := After(codec, NEW_SERVER, steps), RecordAfter(codec, NEW_SERVER, NO_RECORD, steps);
            && h.raised == map[]
            && (!s.conns[c].broken ==>
                  multiset(s.conns[c].sent)[Sent(Notice(body), None)] == h.due[(c, body)])
  {
    ServerFulfils(codec, steps);
    var s, h := After(codec, NEW_SERVER, steps), RecordAfter(codec, NEW_SERVER, NO_RECORD, steps);
    assert Carriers(s, c, body) == {};
    assert forall t: Tid :: t !in h.raised;
    assert Delivered(s, c, body) == multiset(s.conns[c].sent)[NoticeOf(body)];
  }

  /** Once no thread is left, every cancellation has looked for a connection, and the one it found is closed. Nothing
      else closes a connection the accept loop is not done with, and writing to one is broken off exactly once a write
      has failed. */
  lemma CancellationsClose(codec: Codec, steps: seq<Step>, c: ConnId)
    requires ServerRun(codec, steps) && Exists(After(codec, NEW_SERVER, steps), c)
    ensures var s, h := After(codec, NEW_SERVER, steps), RecordAfter(codec, NEW_SERVER, NO_RECORD, steps);
            && (s.threads == map[] ==> h.cancelling == {} && (c in h.toClose ==> s.conns[c].closed))
            && (s.loop == Reading(c) && s.conns[c].closed ==> c in h.toClose)
            && (s.conns[c].broken <==> c in h.failed)
  {
    ServerFulfils(codec, steps);
    var s, h := After(codec, NEW_SERVER, steps), RecordAfter(codec, NEW_SERVER, NO_RECORD, steps);
    assert s.threads == map[] ==> forall t: Tid :: t !in h.cancelling;
  }
}
