/** The IPC server as an interleaving machine: the serial accept loop, the `active` pointer, one goroutine per request,
    events, and cancellation, all writing through per-connection locked writers. One step per atomic operation. */
module IpcProtocol {
  import opened Basics

  type Tid = nat
  type ConnId = nat

  datatype Message = Response(id: int, body: string) | Notice(body: string)

  /** A message and, for a response, the number of the request of its connection it answers. */
  datatype Sent = Sent(message: Message, origin: Option<nat>)

  /** json.Marshal of a message. */
  type Codec = Message -> string

  /** One GUI connection. `wire` is what has reached the socket, `pending` what the writer still holds; `broken` is the
      writer's sticky error. `reqs` are the ids of what was read from it (None for a notification), in order, and
      `sent` the messages whose writing began, in order. */
  datatype Conn = Conn(wire: string, pending: string, broken: bool, closed: bool, holder: Option<Tid>,
                       reqs: seq<Option<int>>, sent: seq<Sent>)

  const NEW_CONN := Conn("", "", false, false, None, [], [])

  /** Where the accept loop stands. */
  datatype Loop = Listening | Accepted(c: ConnId) | Reading(c: ConnId) | Leaving(c: ConnId) | Closing(c: ConnId)
                | Stopped

  /** Where a goroutine stands: handling a request, about to load `active` for an event, waiting for a writer's lock,
      holding it, or cancelling. */
  datatype Pc =
    | Handling(c: ConnId, k: nat)
    | Loading(body: string)
    | Waiting(c: ConnId, msg: Sent)
    | Begin(c: ConnId, msg: Sent)
    | Emitting(c: ConnId)
    | CancelLoad
    | CancelClose(c: ConnId)

  datatype Sys = Sys(conns: seq<Conn>, active: Option<ConnId>, loop: Loop, threads: map<Tid, Pc>)

  const NEW_SERVER := Sys([], None, Listening, map[])

  /** A goroutine's next operation: the body its message gets, whether marshalling or writing succeeds, and how many
      bytes a write to the socket takes. */
  datatype Step =
    | Accept
    | Publish
    | Read(id: Option<int>, t: Tid)
    | HangUp
    | Unpublish
    | Close(stop: bool)
    | Quit
    | Event(t: Tid, body: string)
    | Cancel(t: Tid)
    | Move(t: Tid, body: string, ok: bool, n: nat)

  // ---- steps ----

  predicate Exists(s: Sys, c: ConnId) { c < |s.conns| }

  /** A socket takes no byte after it is closed, and a write it takes only part of fails. */
  predicate Takes(conn: Conn, ok: bool, n: nat) {
    n <= |conn.pending| && (conn.closed ==> n == 0 && !ok)
  }

  predicate EnabledMove(s: Sys, pc: Pc, ok: bool, n: nat) {
    match pc
    case Handling(c, k) => Exists(s, c) && k < |s.conns[c].reqs|
    case Loading(_) => true
    case Waiting(c, _) => Exists(s, c)
    case Begin(c, _) => Exists(s, c)
    case Emitting(c) => Exists(s, c) && Takes(s.conns[c], ok, n)
    case CancelLoad => true
    case CancelClose(c) => Exists(s, c)
  }

  predicate Enabled(s: Sys, a: Step) {
    match a
    case Accept => s.loop.Listening?
    case Publish => s.loop.Accepted? && Exists(s, s.loop.c)
    case Read(_, t) => s.loop.Reading? && Exists(s, s.loop.c) && t !in s.threads
    case HangUp => s.loop.Reading?
    case Unpublish => s.loop.Leaving?
    case Close(_) => s.loop.Closing? && Exists(s, s.loop.c)
    case Quit => s.loop.Listening?
    case Event(t, _) => t !in s.threads
    case Cancel(t) => t !in s.threads
    case Move(t, _, ok, n) => t in s.threads && EnabledMove(s, s.threads[t], ok, n)
  }

  function Line(codec: Codec, m: Sent): string { codec(m.message) + "\n" }

  datatype Outcome = Outcome(conns: seq<Conn>, next: Option<Pc>)

  /** The operations on a writer. A thread that finds the lock taken does not move. */
  function Writing(codec: Codec, t: Tid, conn: Conn, pc: Pc, ok: bool, n: nat): (Conn, Option<Pc>)
    requires (pc.Waiting? || pc.Begin? || pc.Emitting?) && (pc.Emitting? ==> Takes(conn, ok, n))
  {
    match pc
    case Waiting(c, msg) =>
      if conn.holder.Some? then (conn, Some(pc)) else (conn.(holder := Some(t)), Some(Begin(c, msg)))
    case Begin(c, msg) =>
      if conn.broken then (conn.(holder := None), None)
      else (conn.(pending := Line(codec, msg), sent := conn.sent + [msg]), Some(Emitting(c)))
    case Emitting(c) =>
      if conn.broken || conn.pending == "" then (conn.(holder := None), None)
      else (conn.(wire := conn.wire + conn.pending[..n], pending := conn.pending[n..], broken := !ok), Some(pc))
  }

  /** The id the handler answers under: the request's, or 0 where it has none. */
  function AnswerId(id: Option<int>): int { if id.Some? then id.value else 0 }

  function Act(codec: Codec, s: Sys, t: Tid, pc: Pc, body: string, ok: bool, n: nat): Outcome
    requires EnabledMove(s, pc, ok, n)
  {
    match pc
    case Handling(c, k) =>
      Outcome(s.conns, if ok then Some(Waiting(c, Sent(Response(AnswerId(s.conns[c].reqs[k]), body), Some(k))))
              else None)
    case Loading(text) =>
      Outcome(s.conns, if s.active.Some? && ok then Some(Waiting(s.active.value, Sent(Notice(text), None))) else None)
    case CancelLoad => Outcome(s.conns, if s.active.Some? then Some(CancelClose(s.active.value)) else None)
    case CancelClose(c) => Outcome(s.conns[c := s.conns[c].(closed := true)], None)
    case _ =>
      var w := Writing(codec, t, s.conns[pc.c], pc, ok, n);
      Outcome(s.conns[pc.c := w.0], w.1)
  }

  function Put(threads: map<Tid, Pc>, t: Tid, next: Option<Pc>): map<Tid, Pc> {
    if next.Some? then threads[t := next.value] else threads - {t}
  }

  function Do(codec: Codec, s: Sys, a: Step): Sys
    requires Enabled(s, a)
  {
    match a
    case Accept => s.(conns := s.conns + [NEW_CONN], loop := Accepted(|s.conns|))
    case Publish => s.(active := Some(s.loop.c), loop := Reading(s.loop.c))
    case Read(id, t) =>
      var c := s.loop.c;
      var conn := s.conns[c];
      s.(conns := s.conns[c := conn.(reqs := conn.reqs + [id])],
         threads := if id.Some? then s.threads[t := Handling(c, |conn.reqs|)] else s.threads)
    case HangUp => s.(loop := Leaving(s.loop.c))
    case Unpublish => s.(active := if s.active == Some(s.loop.c) then None else s.active, loop := Closing(s.loop.c))
    case Close(stop) =>
      var c := s.loop.c;
      s.(conns := s.conns[c := s.conns[c].(closed := true)], loop := if stop then Stopped else Listening)
    case Quit => s.(loop := Stopped)
    case Event(t, body) => s.(threads := s.threads[t := Loading(body)])
    case Cancel(t) => s.(threads := s.threads[t := CancelLoad])
    case Move(t, body, ok, n) =>
      var o := Act(codec, s, t, s.threads[t], body, ok, n);
      s.(conns := o.conns, threads := Put(s.threads, t, o.next))
  }

  ghost predicate Runnable(codec: Codec, s: Sys, steps: seq<Step>)
    decreases |steps|
  {
    steps == [] || (Enabled(s, steps[0]) && Runnable(codec, Do(codec, s, steps[0]), steps[1..]))
  }

  ghost function After(codec: Codec, s: Sys, steps: seq<Step>): Sys
    requires Runnable(codec, s, steps)
    decreases |steps|
  {
    if steps == [] then s else After(codec, Do(codec, s, steps[0]), steps[1..])
  }

  // ---- invariants ----

  /** `active` is exactly the connection being served. */
  function Served(loop: Loop): Option<ConnId> {
    match loop
    case Reading(c) => Some(c)
    case Leaving(c) => Some(c)
    case _ => None
  }

  function Current(loop: Loop): Option<ConnId> {
    if loop.Listening? || loop.Stopped? then None else Some(loop.c)
  }

  /** Connections are served one after the other: all but the current one are closed. */
  ghost predicate InvLoop(s: Sys) {
    && s.active == Served(s.loop)
    && (Current(s.loop).Some? ==> Exists(s, Current(s.loop).value))
    && (forall c :: 0 <= c < |s.conns| && Current(s.loop) != Some(c) ==> s.conns[c].closed)
  }

  predicate HoldsLock(pc: Pc, c: ConnId) { (pc.Begin? || pc.Emitting?) && pc.c == c }

  ghost predicate InvLocks(s: Sys) {
    && (forall t: Tid, c: ConnId :: t in s.threads && HoldsLock(s.threads[t], c) ==>
          Exists(s, c) && s.conns[c].holder == Some(t))
    && (forall c :: 0 <= c < |s.conns| && s.conns[c].holder.Some? ==>
          s.conns[c].holder.value in s.threads && HoldsLock(s.threads[s.conns[c].holder.value], c))
  }

  function Joined(codec: Codec, sent: seq<Sent>): string {
    if sent == [] then "" else Line(codec, sent[0]) + Joined(codec, sent[1..])
  }

  /** The stream: what is on the wire and what the writer holds are together the lines of the messages begun. */
  ghost predicate Whole(codec: Codec, conn: Conn) { conn.wire + conn.pending == Joined(codec, conn.sent) }

  /** Unless it broke, the writer holds bytes only for the thread that is writing them. */
  ghost predicate InvStream(codec: Codec, s: Sys) {
    && (forall c :: 0 <= c < |s.conns| ==> Whole(codec, s.conns[c]))
    && (forall c :: 0 <= c < |s.conns| && s.conns[c].pending != "" && !s.conns[c].broken ==>
          s.conns[c].holder.Some? && s.conns[c].holder.value in s.threads
            && s.threads[s.conns[c].holder.value] == Emitting(c))
  }

  /** The message is a response to that request of the connection, or a notice. */
  predicate Fits(conn: Conn, m: Sent) {
    if m.origin.Some? then
      m.message.Response? && m.origin.value < |conn.reqs| && conn.reqs[m.origin.value] == Some(m.message.id)
    else m.message.Notice?
  }

  /** The request of connection c this thread is to answer. */
  function Owes(pc: Pc, c: ConnId): Option<nat> {
    match pc
    case Handling(d, k) => if c == d then Some(k) else None
    case Waiting(d, m) => if c == d then m.origin else None
    case Begin(d, m) => if c == d then m.origin else None
    case _ => None
  }

  predicate FitsThread(s: Sys, pc: Pc) {
    match pc
    case Handling(c, k) => Exists(s, c) && k < |s.conns[c].reqs| && s.conns[c].reqs[k].Some?
    case Waiting(c, m) => Exists(s, c) && Fits(s.conns[c], m)
    case Begin(c, m) => Exists(s, c) && Fits(s.conns[c], m)
    case Emitting(c) => Exists(s, c)
    case CancelClose(c) => Exists(s, c)
    case _ => true
  }

  ghost predicate NotAnswered(conn: Conn, k: nat) {
    forall i :: 0 <= i < |conn.sent| ==> conn.sent[i].origin != Some(k)
  }

  ghost predicate OnceEach(conn: Conn) {
    && (forall i :: 0 <= i < |conn.sent| ==> Fits(conn, conn.sent[i]))
    && (forall i, j :: 0 <= i < j < |conn.sent| && conn.sent[i].origin.Some? ==>
          conn.sent[i].origin != conn.sent[j].origin)
  }

  /** Each request is owed by at most one thread, and by none once its response is begun. */
  ghost predicate InvAnswers(s: Sys) {
    && (forall t: Tid :: t in s.threads ==> FitsThread(s, s.threads[t]))
    && (forall t: Tid, u: Tid, c: ConnId ::
          t in s.threads && u in s.threads && t != u && Owes(s.threads[t], c).Some? ==>
          Owes(s.threads[t], c) != Owes(s.threads[u], c))
    && (forall t: Tid, c: ConnId :: t in s.threads && Exists(s, c) && Owes(s.threads[t], c).Some? ==>
          NotAnswered(s.conns[c], Owes(s.threads[t], c).value))
    && (forall c :: 0 <= c < |s.conns| ==> OnceEach(s.conns[c]))
  }

  ghost predicate Inv(codec: Codec, s: Sys) { InvLoop(s) && InvLocks(s) && InvStream(codec, s) && InvAnswers(s) }
}
