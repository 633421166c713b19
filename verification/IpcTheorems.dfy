/** What every run of the IPC server keeps: whole lines on each connection, answers only to its own requests and at
    most one each, and one served connection at a time. */
module IpcTheorems {
  import opened Basics
  import opened IpcProtocol

  // ---- the loop ----

  lemma LoopKept(codec: Codec, s: Sys, a: Step)
    requires Enabled(s, a) && InvLoop(s)
    ensures InvLoop(Do(codec, s, a))
  {
    var n := Do(codec, s, a);
    if a.Move? {
      forall c | 0 <= c < |s.conns| && s.conns[c].closed ensures n.conns[c].closed {}
    }
  }

  // ---- locks ----

  lemma HoldersKeep(codec: Codec, s: Sys, a: Step, t: Tid, c: ConnId)
    requires Enabled(s, a) && InvLocks(s) && t in Do(codec, s, a).threads && HoldsLock(Do(codec, s, a).threads[t], c)
    ensures var n := Do(codec, s, a); Exists(n, c) && n.conns[c].holder == Some(t)
  {
    if !a.Move? || t != a.t {
      assert t in s.threads && HoldsLock(s.threads[t], c);
      assert Exists(s, c) && s.conns[c].holder == Some(t);
    }
  }

  lemma LocksKept(codec: Codec, s: Sys, a: Step)
    requires Enabled(s, a) && InvLocks(s)
    ensures InvLocks(Do(codec, s, a))
  {
    var n := Do(codec, s, a);
    forall t: Tid, c: ConnId | t in n.threads && HoldsLock(n.threads[t], c)
      ensures Exists(n, c) && n.conns[c].holder == Some(t)
    {
      HoldersKeep(codec, s, a, t, c);
    }
    forall c | 0 <= c < |n.conns| && n.conns[c].holder.Some?
      ensures n.conns[c].holder.value in n.threads && HoldsLock(n.threads[n.conns[c].holder.value], c)
    {
      HeldByHolder(codec, s, a, c);
    }
  }

  lemma HeldByHolder(codec: Codec, s: Sys, a: Step, c: ConnId)
    requires Enabled(s, a) && InvLocks(s) && Exists(Do(codec, s, a), c) && Do(codec, s, a).conns[c].holder.Some?
    ensures var n := Do(codec, s, a);
            n.conns[c].holder.value in n.threads && HoldsLock(n.threads[n.conns[c].holder.value], c)
  {
    var t := Do(codec, s, a).conns[c].holder.value;
    if c < |s.conns| && s.conns[c].holder == Some(t) { assert t in s.threads && HoldsLock(s.threads[t], c); }
  }

  // ---- the stream ----

  lemma {:induction false} JoinedSnoc(codec: Codec, sent: seq<Sent>, m: Sent)
    ensures Joined(codec, sent + [m]) == Joined(codec, sent) + Line(codec, m)
  {
    if sent == [] {
      assert [m][1..] == [];
    } else {
      JoinedSnoc(codec, sent[1..], m);
      assert (sent + [m])[1..] == sent[1..] + [m];
    }
  }

  /** One operation on a writer keeps the stream whole, given that the writer is clean where a new line begins. */
  lemma WritingKeepsWhole(codec: Codec, t: Tid, conn: Conn, pc: Pc, ok: bool, n: nat)
    requires (pc.Waiting? || pc.Begin? || pc.Emitting?) && (pc.Emitting? ==> Takes(conn, ok, n))
    requires Whole(codec, conn) && (pc.Begin? && !conn.broken ==> conn.pending == "")
    ensures Whole(codec, Writing(codec, t, conn, pc, ok, n).0)
  {
    match pc
    case Waiting(_, _) =>
    case Begin(_, msg) =>
      JoinedSnoc(codec, conn.sent, msg);
      assert conn.wire + "" == conn.wire;
    case Emitting(_) =>
      assert conn.pending == conn.pending[..n] + conn.pending[n..];
      assert (conn.wire + conn.pending[..n]) + conn.pending[n..] == conn.wire + conn.pending;
  }

  lemma WholeKept(codec: Codec, s: Sys, a: Step)
    requires Enabled(s, a) && InvLocks(s) && InvStream(codec, s)
    ensures var n := Do(codec, s, a); forall c :: 0 <= c < |n.conns| ==> Whole(codec, n.conns[c])
  {
    var n := Do(codec, s, a);
    if a.Move? && (s.threads[a.t].Waiting? || s.threads[a.t].Begin? || s.threads[a.t].Emitting?) {
      var pc := s.threads[a.t];
      if pc.Begin? { assert HoldsLock(pc, pc.c); }
      WritingKeepsWhole(codec, a.t, s.conns[pc.c], pc, a.ok, a.n);
    }
    forall c | 0 <= c < |n.conns| ensures Whole(codec, n.conns[c]) {
      if c < |s.conns| { assert Whole(codec, s.conns[c]); }
    }
  }

  /** One operation on a writer: afterwards, what it holds unbroken it holds for the thread that moved on to emit. */
  lemma WritingHolds(codec: Codec, t: Tid, conn: Conn, pc: Pc, ok: bool, n: nat)
    requires (pc.Waiting? || pc.Begin? || pc.Emitting?) && (pc.Emitting? ==> Takes(conn, ok, n))
    requires pc.Begin? || pc.Emitting? ==> conn.holder == Some(t)
    requires conn.pending != "" && !conn.broken ==> conn.holder.Some?
    requires pc.Begin? && !conn.broken ==> conn.pending == ""
    ensures var w := Writing(codec, t, conn, pc, ok, n);
            w.0.pending != "" && !w.0.broken ==>
              if pc.Waiting? then w.0 == conn && w.1 == Some(pc)
              else w.0.holder == Some(t) && w.1 == Some(Emitting(pc.c))
  {}

  /** A step that does not touch the writer leaves its holder where it stands. */
  lemma OthersHold(codec: Codec, s: Sys, a: Step, c: ConnId)
    requires Enabled(s, a) && Exists(s, c) && s.conns[c].holder.Some? && s.conns[c].holder.value in s.threads
    requires a.Move? ==> s.conns[c].holder != Some(a.t)
    ensures s.conns[c].holder.value in Do(codec, s, a).threads
    ensures Do(codec, s, a).threads[s.conns[c].holder.value] == s.threads[s.conns[c].holder.value]
  {}

  lemma HeldBy(codec: Codec, s: Sys, a: Step, c: ConnId)
    requires Enabled(s, a) && InvLocks(s) && InvStream(codec, s) && Exists(Do(codec, s, a), c)
    requires var n := Do(codec, s, a); n.conns[c].pending != "" && !n.conns[c].broken
    ensures var n := Do(codec, s, a);
            n.conns[c].holder.Some? && n.conns[c].holder.value in n.threads
              && n.threads[n.conns[c].holder.value] == Emitting(c)
  {
    if a.Move? && OnWriter(s.threads[a.t], c) {
      var pc := s.threads[a.t];
      assert HoldsLock(pc, c) ==> Exists(s, c) && s.conns[c].holder == Some(a.t);
      WritingHolds(codec, a.t, s.conns[c], pc, a.ok, a.n);
      if pc.Waiting? { OthersHold(codec, s, a, c); }
    } else {
      WriterUntouched(codec, s, a, c);
      assert a.Move? ==> !HoldsLock(s.threads[a.t], c);
      OthersHold(codec, s, a, c);
    }
  }

  predicate OnWriter(pc: Pc, c: ConnId) { (pc.Waiting? || pc.Begin? || pc.Emitting?) && pc.c == c }

  lemma WriterUntouched(codec: Codec, s: Sys, a: Step, c: ConnId)
    requires Enabled(s, a) && Exists(Do(codec, s, a), c) && !(a.Move? && OnWriter(s.threads[a.t], c))
    ensures var conn := Do(codec, s, a).conns[c];
            if Exists(s, c) then conn.pending == s.conns[c].pending && conn.broken == s.conns[c].broken
                                 && conn.holder == s.conns[c].holder && conn.sent == s.conns[c].sent
                                   && conn.wire == s.conns[c].wire
            else conn == NEW_CONN
  {}

  lemma HeldKept(codec: Codec, s: Sys, a: Step)
    requires Enabled(s, a) && InvLocks(s) && InvStream(codec, s)
    ensures var n := Do(codec, s, a);
            forall c :: 0 <= c < |n.conns| && n.conns[c].pending != "" && !n.conns[c].broken ==>
              n.conns[c].holder.Some? && n.conns[c].holder.value in n.threads
                && n.threads[n.conns[c].holder.value] == Emitting(c)
  {
    var n := Do(codec, s, a);
    forall c | 0 <= c < |n.conns| && n.conns[c].pending != "" && !n.conns[c].broken
      ensures n.conns[c].holder.Some? && n.conns[c].holder.value in n.threads
              && n.threads[n.conns[c].holder.value] == Emitting(c)
    {
      HeldBy(codec, s, a, c);
    }
  }

  lemma StreamKept(codec: Codec, s: Sys, a: Step)
    requires Enabled(s, a) && InvLocks(s) && InvStream(codec, s)
    ensures InvStream(codec, Do(codec, s, a))
  {
    WholeKept(codec, s, a);
    HeldKept(codec, s, a);
  }

  // ---- answers ----

  lemma FitsMore(conn: Conn, more: Conn, m: Sent)
    requires Fits(conn, m) && conn.reqs <= more.reqs
    ensures Fits(more, m)
  {}

  /** Requests are only ever added, and a new one has no answer yet. */
  lemma RequestsGrow(codec: Codec, s: Sys, a: Step, c: ConnId)
    requires Enabled(s, a) && Exists(s, c)
    ensures Exists(Do(codec, s, a), c) && s.conns[c].reqs <= Do(codec, s, a).conns[c].reqs
  {}

  lemma StillFits(codec: Codec, s: Sys, a: Step, pc: Pc)
    requires Enabled(s, a) && FitsThread(s, pc)
    ensures FitsThread(Do(codec, s, a), pc)
  {
    if !pc.Loading? && !pc.CancelLoad? { RequestsGrow(codec, s, a, pc.c); }
  }

  /** The next position of a thread fits where its last one did. */
  lemma NextFits(codec: Codec, s: Sys, t: Tid, pc: Pc, body: string, ok: bool, n: nat)
    requires EnabledMove(s, pc, ok, n) && FitsThread(s, pc) && (s.active.Some? ==> Exists(s, s.active.value))
    ensures var next := Act(codec, s, t, pc, body, ok, n).next; next.Some? ==> FitsThread(s, next.value)
  {}

  lemma ThreadsStillFit(codec: Codec, s: Sys, a: Step)
    requires Enabled(s, a) && InvAnswers(s) && InvLoop(s)
    ensures forall t: Tid :: t in Do(codec, s, a).threads ==> FitsThread(Do(codec, s, a), Do(codec, s, a).threads[t])
  {
    var n := Do(codec, s, a);
    forall t: Tid | t in n.threads ensures FitsThread(n, n.threads[t]) {
      if t in s.threads && n.threads[t] == s.threads[t] {
        StillFits(codec, s, a, s.threads[t]);
      } else if a.Move? {
        NextFits(codec, s, a.t, s.threads[a.t], a.body, a.ok, a.n);
        StillFits(codec, s, a, n.threads[t]);
      }
    }
  }

  /** What a step does to the messages begun on a connection: nothing, or it begins the one the moving thread owes. */
  lemma SentGrows(codec: Codec, s: Sys, a: Step, c: ConnId)
    requires Enabled(s, a) && Exists(s, c)
    ensures Exists(Do(codec, s, a), c)
    ensures var n := Do(codec, s, a);
            || n.conns[c].sent == s.conns[c].sent
            || (a.Move? && s.threads[a.t].Begin? && s.threads[a.t].c == c && a.t in n.threads
                  && n.threads[a.t] == Emitting(c)
                && n.conns[c].sent == s.conns[c].sent + [s.threads[a.t].msg])
  {}

  /** What a step does to what a thread owes: it keeps it, drops it, or takes on the request just read. */
  lemma OwesKept(codec: Codec, s: Sys, a: Step, t: Tid, c: ConnId)
    requires Enabled(s, a) && t in Do(codec, s, a).threads && Owes(Do(codec, s, a).threads[t], c).Some?
    ensures var owed := Owes(Do(codec, s, a).threads[t], c);
            || (t in s.threads && Owes(s.threads[t], c) == owed)
            || (a.Read? && a.t == t && t !in s.threads && s.loop.c == c && owed == Some(|s.conns[c].reqs|))
  {}

  lemma OwedFits(s: Sys, t: Tid, c: ConnId)
    requires t in s.threads && FitsThread(s, s.threads[t]) && Owes(s.threads[t], c).Some?
    ensures Exists(s, c) && Owes(s.threads[t], c).value < |s.conns[c].reqs|
  {}

  lemma OwedOnce(codec: Codec, s: Sys, a: Step)
    requires Enabled(s, a) && InvAnswers(s)
    ensures var n := Do(codec, s, a);
            forall t: Tid, u: Tid, c: ConnId ::
              t in n.threads && u in n.threads && t != u && Owes(n.threads[t], c).Some? ==>
              Owes(n.threads[t], c) != Owes(n.threads[u], c)
  {
    var n := Do(codec, s, a);
    forall t: Tid, u: Tid, c: ConnId | t in n.threads && u in n.threads && t != u
                                       && Owes(n.threads[t], c).Some? && Owes(n.threads[u], c).Some?
      ensures Owes(n.threads[t], c) != Owes(n.threads[u], c)
    {
      OwesKept(codec, s, a, t, c);
      OwesKept(codec, s, a, u, c);
      if t in s.threads && Owes(s.threads[t], c).Some? { OwedFits(s, t, c); }
      if u in s.threads && Owes(s.threads[u], c).Some? { OwedFits(s, u, c); }
    }
  }

  lemma OwedNotAnswered(codec: Codec, s: Sys, a: Step)
    requires Enabled(s, a) && InvAnswers(s)
    ensures var n := Do(codec, s, a);
            forall t: Tid, c: ConnId :: t in n.threads && Exists(n, c) && Owes(n.threads[t], c).Some? ==>
              NotAnswered(n.conns[c], Owes(n.threads[t], c).value)
  {
    var n := Do(codec, s, a);
    forall t: Tid, c: ConnId | t in n.threads && Exists(n, c) && Owes(n.threads[t], c).Some?
      ensures NotAnswered(n.conns[c], Owes(n.threads[t], c).value)
    {
      OwesKept(codec, s, a, t, c);
      if t in s.threads && Owes(s.threads[t], c).Some? {
        OwedFits(s, t, c);
        SentGrows(codec, s, a, c);
      } else {
        assert OnceEach(s.conns[c]);
        forall i | 0 <= i < |n.conns[c].sent| ensures n.conns[c].sent[i].origin != Some(|s.conns[c].reqs|) {
          assert Fits(s.conns[c], s.conns[c].sent[i]);
        }
      }
    }
  }

  lemma StillOnceEach(codec: Codec, s: Sys, a: Step)
    requires Enabled(s, a) && InvAnswers(s)
    ensures var n := Do(codec, s, a); forall c :: 0 <= c < |n.conns| ==> OnceEach(n.conns[c])
  {
    var n := Do(codec, s, a);
    forall c | 0 <= c < |n.conns| ensures OnceEach(n.conns[c]) {
      if c < |s.conns| {
        SentGrows(codec, s, a, c);
        RequestsGrow(codec, s, a, c);
        var was, now := s.conns[c], n.conns[c];
        assert OnceEach(was);
        forall i | 0 <= i < |now.sent| ensures Fits(now, now.sent[i]) {
          if i < |was.sent| {
            FitsMore(was, now, was.sent[i]);
          } else {
            assert FitsThread(s, s.threads[a.t]);
            FitsMore(was, now, s.threads[a.t].msg);
          }
        }
      }
    }
  }

  lemma AnswersKept(codec: Codec, s: Sys, a: Step)
    requires Enabled(s, a) && InvAnswers(s) && InvLoop(s)
    ensures InvAnswers(Do(codec, s, a))
  {
    ThreadsStillFit(codec, s, a);
    OwedOnce(codec, s, a);
    OwedNotAnswered(codec, s, a);
    StillOnceEach(codec, s, a);
  }

  // ---- along any run ----

  lemma InvKept(codec: Codec, s: Sys, a: Step)
    requires Enabled(s, a) && Inv(codec, s)
    ensures Inv(codec, Do(codec, s, a))
  {
    LoopKept(codec, s, a);
    LocksKept(codec, s, a);
    StreamKept(codec, s, a);
    AnswersKept(codec, s, a);
  }

  lemma {:induction false} InvAlong(codec: Codec, s: Sys, steps: seq<Step>)
    requires Inv(codec, s) && Runnable(codec, s, steps)
    ensures Inv(codec, After(codec, s, steps))
    decreases |steps|
  {
    if steps != [] {
      InvKept(codec, s, steps[0]);
      InvAlong(codec, Do(codec, s, steps[0]), steps[1..]);
    }
  }

  ghost predicate ServerRun(codec: Codec, steps: seq<Step>) { Runnable(codec, NEW_SERVER, steps) }

  /** `active` is the connection being served, or nothing; every other connection is closed. */
  lemma ActiveIsServed(codec: Codec, steps: seq<Step>)
    requires ServerRun(codec, steps)
    ensures var s := After(codec, NEW_SERVER, steps);
            && (forall c: ConnId :: s.active == Some(c) <==> s.loop == Reading(c) || s.loop == Leaving(c))
            && (forall c :: 0 <= c < |s.conns| && (s.loop.Listening? || s.loop.Stopped? || s.loop.c != c) ==>
                  s.conns[c].closed)
  {
    InvAlong(codec, NEW_SERVER, steps);
  }

  /** The bytes on each connection are a prefix of the lines of whole messages, in the order their writing began: no
      line is torn or interleaved with another. Unless a write failed, all of them are there once no thread holds
      the writer. */
  lemma WireIsWholeLines(codec: Codec, steps: seq<Step>, c: ConnId)
    requires ServerRun(codec, steps) && Exists(After(codec, NEW_SERVER, steps), c)
    ensures var conn := After(codec, NEW_SERVER, steps).conns[c];
            && conn.wire <= Joined(codec, conn.sent)
            && (!conn.broken && conn.holder.None? ==> conn.wire == Joined(codec, conn.sent))
  {
    InvAlong(codec, NEW_SERVER, steps);
    var conn := After(codec, NEW_SERVER, steps).conns[c];
    assert Whole(codec, conn);
    assert conn.wire + "" == conn.wire;
  }

  /** Each message of a connection is a notice or answers a request read from that same connection, under its id; no
      two answer the same request, and none answers a notification. */
  lemma ResponsesAnswer(codec: Codec, steps: seq<Step>, c: ConnId)
    requires ServerRun(codec, steps) && Exists(After(codec, NEW_SERVER, steps), c)
    ensures var conn := After(codec, NEW_SERVER, steps).conns[c];
            && (forall i :: 0 <= i < |conn.sent| && conn.sent[i].message.Response? ==>
                  var m := conn.sent[i];
                  m.origin.Some? && m.origin.value < |conn.reqs| && conn.reqs[m.origin.value] == Some(m.message.id))
            && (forall i, j ::
                  0 <= i < j < |conn.sent| && conn.sent[i].message.Response? && conn.sent[j].message.Response? ==>
                  conn.sent[i].origin != conn.sent[j].origin)
  {
    InvAlong(codec, NEW_SERVER, steps);
    var conn := After(codec, NEW_SERVER, steps).conns[c];
    assert OnceEach(conn);
    assert forall i :: 0 <= i < |conn.sent| ==> Fits(conn, conn.sent[i]);
  }

  /** The wire only grows, and a closed connection's does not grow at all. */
  lemma ClosedIsSilent(codec: Codec, s: Sys, a: Step, c: ConnId)
    requires Enabled(s, a) && Exists(s, c)
    ensures Exists(Do(codec, s, a), c) && s.conns[c].wire <= Do(codec, s, a).conns[c].wire
    ensures s.conns[c].closed ==> Do(codec, s, a).conns[c].wire == s.conns[c].wire && Do(codec, s, a).conns[c].closed
  {
    var n := Do(codec, s, a);
    if a.Move? && s.threads[a.t].Emitting? && s.threads[a.t].c == c {
      var conn := s.conns[c];
      if conn.closed { assert conn.wire + conn.pending[..0] == conn.wire; }
    }
  }

  /** Only the thread that holds a connection's lock adds to its stream. */
  lemma OnlyTheHolderWrites(codec: Codec, s: Sys, a: Step, c: ConnId)
    requires Enabled(s, a) && Exists(s, c) && InvLocks(s)
    requires a.Move? ==> s.conns[c].holder != Some(a.t)
    ensures Exists(Do(codec, s, a), c)
    ensures Do(codec, s, a).conns[c].wire == s.conns[c].wire && Do(codec, s, a).conns[c].sent == s.conns[c].sent
  {
    if a.Move? { assert !HoldsLock(s.threads[a.t], c); }
  }

  // ---- reading the stream ----

  /** Marshalling escapes newlines. */
  ghost predicate OneLine(codec: Codec) { forall m :: '\n' !in codec(m) }

  /** The position of the first newline, or the length. */
  function Break(s: string): (i: nat)
    ensures i <= |s| && (forall j :: 0 <= j < i ==> s[j] != '\n') && (i < |s| ==> s[i] == '\n')
  {
    if s == "" || s[0] == '\n' then 0 else 1 + Break(s[1..])
  }

  /** The complete lines of a stream; an unfinished one at the end is not among them. */
  function Lines(s: string): seq<string>
    decreases |s|
  {
    var i := Break(s);
    if i == |s| then [] else [s[..i]] + Lines(s[i + 1..])
  }

  function Texts(codec: Codec, sent: seq<Sent>): (r: seq<string>)
    ensures |r| == |sent| && forall i :: 0 <= i < |sent| ==> r[i] == codec(sent[i].message)
  {
    seq(|sent|, i requires 0 <= i < |sent| => codec(sent[i].message))
  }

  /** A text without newlines and the newline after it read back as that text. */
  lemma FirstLine(text: string, rest: string)
    requires '\n' !in text
    ensures Break(text + "\n" + rest) == |text|
    ensures Lines(text + "\n" + rest) == [text] + Lines(rest)
  {
    var s := text + "\n" + rest;
    assert s[|text|] == '\n' && forall j :: 0 <= j < |text| ==> s[j] == text[j];
    assert Break(s) == |text|;
    assert s[..|text|] == text && s[|text| + 1..] == rest;
  }

  lemma NoLine(part: string)
    requires '\n' !in part
    ensures Lines(part) == []
  {
    assert forall j :: 0 <= j < |part| ==> part[j] in part;
  }

  /** Cut anywhere, the stream reads back as its first messages, whole and in order. */
  lemma {:induction false} PrefixReadsBack(codec: Codec, sent: seq<Sent>, wire: string)
    requires OneLine(codec) && wire <= Joined(codec, sent)
    ensures Lines(wire) <= Texts(codec, sent)
    ensures wire == Joined(codec, sent) ==> Lines(wire) == Texts(codec, sent)
    decreases |sent|
  {
    if sent != [] {
      var text := codec(sent[0].message);
      var line, rest := text + "\n", Joined(codec, sent[1..]);
      assert Line(codec, sent[0]) == line && Joined(codec, sent) == line + rest;
      assert Texts(codec, sent) == [text] + Texts(codec, sent[1..]);
      if |wire| < |line| {
        assert wire == line[..|wire|];
        assert forall ch :: ch in wire ==> ch in text;
        NoLine(wire);
      } else {
        var more := wire[|line|..];
        assert wire == text + "\n" + more && more <= rest;
        FirstLine(text, more);
        PrefixReadsBack(codec, sent[1..], more);
      }
    }
  }

  /** A client that splits what it receives at newlines gets whole messages of its own connection, in the order they
      were written, whenever it looks. */
  lemma ClientReadsMessages(codec: Codec, steps: seq<Step>, c: ConnId)
    requires OneLine(codec) && ServerRun(codec, steps) && Exists(After(codec, NEW_SERVER, steps), c)
    ensures var conn := After(codec, NEW_SERVER, steps).conns[c]; Lines(conn.wire) <= Texts(codec, conn.sent)
  {
    WireIsWholeLines(codec, steps, c);
    var conn := After(codec, NEW_SERVER, steps).conns[c];
    PrefixReadsBack(codec, conn.sent, conn.wire);
  }
}
