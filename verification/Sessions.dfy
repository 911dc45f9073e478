/** The WhatsApp session manager (whatsapp-bridge/src/sessions.js): sockets, retry counters
    and reconnect timers of any number of sessions. One event below is what JavaScript runs
    between two awaits; a suspended call is a Task. */
module Sessions {

  type Sid = string
  type Sock = nat // in order of creation
  type Timer = nat // in order of creation

  datatype Connection = Unchanged | Opened | Closed(loggedOut: bool)

  datatype Task =
    | Starting(sid: Sid, byTimer: bool) // start(), past its stop(), waiting for auth and version
    | Retrying(sid: Sid) // a timer's failed start(), waiting for notify
    // A handler, waiting for the notify of its QR, or of that QR's failure.
    | ShowingQr(sid: Sid, connection: Connection, failed: bool)
    | Notifying(sid: Sid) // a handler, waiting for the notify of "disconnected"
    | Clearing(sid: Sid) // a handler, waiting for auth.clear()
    | LoggingOut(sid: Sid, sock: Sock) // an unlinking stop(), waiting for the socket's logout()

  datatype Note =
    | Scheduled(sid: Sid, delay: nat) // a reconnect timer was set
    | Reset(sid: Sid) // stop() or "open" deleted the counter
    | Notified(sid: Sid, event: string)

  datatype State = State(
    sockets: map<Sid, Sock>,
    attempts: map<Sid, nat>, // reconnectAttempts
    timers: map<Sid, Timer>,
    armed: map<Timer, Sid>, // what the event loop will still fire
    nextTimer: nat,
    owner: seq<Sid>, // the session each socket was made for
    live: set<Sock>, // sockets neither ended, nor logged out, nor closed by themselves
    tasks: multiset<Task>,
    log: seq<Note>)
  {
    predicate Current(k: Sock) {
      k < |owner| && owner[k] in sockets && sockets[owner[k]] == k
    }

    function Attempts(sid: Sid): nat { if sid in attempts then attempts[sid] else 0 }
  }

  const Boot := State(map[], map[], map[], map[], 0, [], {}, multiset{}, [])

  const RECONNECT_BASE_MS := 2000
  const RECONNECT_MAX_MS := 60000

  function Pow2(n: nat): nat { if n == 0 then 1 else 2 * Pow2(n - 1) }

  function Backoff(attempt: nat): nat
    requires attempt >= 1
  {
    var delay := RECONNECT_BASE_MS * Pow2(attempt - 1);
    if delay <= RECONNECT_MAX_MS then delay else RECONNECT_MAX_MS
  }

  // ----- The methods' effects between awaits -----

  function ClearTimer(s: State, sid: Sid): State {
    if sid in s.timers
    then s.(armed := s.armed - {s.timers[sid]}, timers := s.timers - {sid})
    else s
  }

  /** setTimeout, and its handle stored. */
  function Arm(s: State, sid: Sid, delay: nat): State {
    s.(timers := s.timers[sid := s.nextTimer],
       armed := s.armed[s.nextTimer := sid],
       nextTimer := s.nextTimer + 1,
       log := s.log + [Scheduled(sid, delay)])
  }

  function ScheduleReconnect(s: State, sid: Sid): State {
    var attempt := s.Attempts(sid) + 1;
    Arm(ClearTimer(s.(attempts := s.attempts[sid := attempt]), sid), sid, Backoff(attempt))
  }

  /** What every stop() does to the Maps. */
  function Forget(s: State, sid: Sid): State {
    var c := ClearTimer(s, sid);
    c.(attempts := c.attempts - {sid}, sockets := c.sockets - {sid}, log := c.log + [Reset(sid)])
  }

  /** stop() that keeps the credentials: end() closes the socket at once. */
  function Stop(s: State, sid: Sid): State {
    var c := Forget(s, sid);
    c.(live := if sid in s.sockets then c.live - {s.sockets[sid]} else c.live)
  }

  /** stop() that unlinks, up to its await: the socket works until logout() has ended it. */
  function Unlinked(s: State, sid: Sid): State {
    var c := Forget(s, sid);
    c.(tasks := if sid in s.sockets then c.tasks + multiset{LoggingOut(sid, s.sockets[sid])} else c.tasks)
  }

  function BeginStart(s: State, sid: Sid, byTimer: bool): State {
    var c := Stop(s, sid);
    c.(tasks := c.tasks + multiset{Starting(sid, byTimer)})
  }

  /** start() once auth and version are there: the new socket takes the session. */
  function Install(s: State, sid: Sid): State {
    s.(sockets := s.sockets[sid := |s.owner|], live := s.live + {|s.owner|}, owner := s.owner + [sid])
  }

  /** The `connection` branches of the handler, past the QR. */
  function React(s: State, sid: Sid, connection: Connection): State {
    match connection
    case Unchanged => s
    case Opened =>
      s.(attempts := s.attempts - {sid}, log := s.log + [Reset(sid), Notified(sid, "linked")])
    case Closed(true) => s.(tasks := s.tasks + multiset{Clearing(sid)})
    case Closed(false) =>
      s.(tasks := s.tasks + multiset{Notifying(sid)}, log := s.log + [Notified(sid, "disconnected")])
  }

  function OnUpdate(s: State, k: Sock, qr: bool, connection: Connection): State
    requires k < |s.owner|
  {
    var sid := s.owner[k];
    if !s.Current(k) then s
    else if qr then
      s.(tasks := s.tasks + multiset{ShowingQr(sid, connection, false)}, log := s.log + [Notified(sid, "qr")])
    else React(s, sid, connection)
  }

  /** A suspended call goes on after its await. */
  function Resumed(s: State, t: Task): State {
    var c := s.(tasks := s.tasks - multiset{t});
    match t
    case Starting(sid, _) => Install(c, sid)
    case Retrying(sid) => ScheduleReconnect(c, sid)
    case Notifying(sid) => ScheduleReconnect(c, sid)
    case ShowingQr(sid, connection, _) => React(c, sid, connection)
    case Clearing(sid) => c.(sockets := c.sockets - {sid}, log := c.log + [Notified(sid, "logged_out")])
    case LoggingOut(_, k) => c.(live := c.live - {k})
  }

  /** What a suspended call awaits throws instead: a timer's start() is tried again, a QR that
      could not be shown is reported before its handler goes on, a failed logout() is swallowed. */
  function Rejected(s: State, t: Task): State {
    var c := s.(tasks := s.tasks - multiset{t});
    match t
    case Starting(sid, true) =>
      c.(tasks := c.tasks + multiset{Retrying(sid)}, log := c.log + [Notified(sid, "disconnected")])
    case ShowingQr(sid, connection, false) =>
      c.(tasks := c.tasks + multiset{ShowingQr(sid, connection, true)}, log := c.log + [Notified(sid, "failed")])
    case _ => c
  }

  function StopAll(s: State, sids: seq<Sid>): State {
    if sids == [] then s else Stop(StopAll(s, sids[..|sids| - 1]), sids[|sids| - 1])
  }

  // ----- The protocol -----

  datatype Event =
    | Start(sid: Sid)
    | StopSession(sid: Sid)
    | Unlink(sid: Sid)
    | Shutdown(sids: seq<Sid>)
    | Fire(timer: Timer)
    | Dies(sock: Sock) // a socket closes by itself
    | Update(sock: Sock, qr: bool, connection: Connection)
    | Resume(task: Task)
    | Reject(task: Task)

  predicate Enabled(s: State, e: Event) {
    match e
    case Start(_) => true
    case StopSession(_) => true
    case Unlink(_) => true
    case Shutdown(sids) => (set sid | sid in sids) == s.sockets.Keys
    case Fire(timer) => timer in s.armed
    case Dies(k) => k in s.live
    case Update(k, _, connection) => k < |s.owner| && (connection.Closed? ==> k !in s.live)
    case Resume(t) => t in s.tasks
    case Reject(t) => t in s.tasks
  }

  function Next(s: State, e: Event): State
    requires Enabled(s, e)
  {
    match e
    case Start(sid) => BeginStart(s, sid, false)
    case StopSession(sid) => Stop(s, sid)
    case Unlink(sid) => Unlinked(s, sid)
    case Shutdown(sids) => StopAll(s, sids)
    case Fire(timer) => BeginStart(s.(armed := s.armed - {timer}), s.armed[timer], true)
    case Dies(k) => s.(live := s.live - {k})
    case Update(k, qr, connection) => OnUpdate(s, k, qr, connection)
    case Resume(t) => Resumed(s, t)
    case Reject(t) => Rejected(s, t)
  }

  predicate Runs(s: State, events: seq<Event>)
    decreases |events|
  {
    events == [] || (Enabled(s, events[0]) && Runs(Next(s, events[0]), events[1..]))
  }

  function After(s: State, events: seq<Event>): State
    requires Runs(s, events)
    decreases |events|
  {
    if events == [] then s else After(Next(s, events[0]), events[1..])
  }

  // ----- The invariant -----

  /** Armed timers and stored handles are the same, one to one. */
  predicate TimersExact(s: State) {
    && (forall sid | sid in s.timers :: s.timers[sid] in s.armed && s.armed[s.timers[sid]] == sid)
    && (forall h | h in s.armed :: h < s.nextTimer && s.armed[h] in s.timers && s.timers[s.armed[h]] == h)
  }

  predicate SocketsOwned(s: State) {
    && (forall sid | sid in s.sockets :: s.sockets[sid] < |s.owner| && s.owner[s.sockets[sid]] == sid)
    && (forall k | k in s.live :: k < |s.owner|)
  }

  /** Reconnects scheduled for a session since its last stop or open. */
  function Pending(log: seq<Note>, sid: Sid): nat {
    if log == [] then 0 else Counted(Pending(log[..|log| - 1], sid), log[|log| - 1], sid)
  }

  function Counted(n: nat, note: Note, sid: Sid): nat {
    match note
    case Reset(x) => if x == sid then 0 else n
    case Scheduled(x, _) => if x == sid then n + 1 else n
    case Notified(_, _) => n
  }

  ghost predicate Counts(s: State) {
    forall sid :: s.Attempts(sid) == Pending(s.log, sid)
  }

  predicate DelaysRight(log: seq<Note>) {
    forall i | 0 <= i < |log| && log[i].Scheduled? ::
      log[i].delay == Backoff(Pending(log[..i], log[i].sid) + 1)
  }

  ghost predicate Inv(s: State) {
    TimersExact(s) && SocketsOwned(s) && Counts(s) && DelaysRight(s.log)
  }

  lemma PendingOne(log: seq<Note>, note: Note, sid: Sid)
    ensures Pending(log + [note], sid) == Counted(Pending(log, sid), note, sid)
  {
    assert (log + [note])[..|log|] == log;
  }

  lemma DelaysOne(log: seq<Note>, note: Note)
    requires DelaysRight(log)
    requires note.Scheduled? ==> note.delay == Backoff(Pending(log, note.sid) + 1)
    ensures DelaysRight(log + [note])
  {
    assert (log + [note])[..|log|] == log;
    forall i | 0 <= i < |log| ensures (log + [note])[..i] == log[..i] {}
  }

  lemma LogOne(log: seq<Note>, note: Note)
    requires DelaysRight(log)
    requires note.Scheduled? ==> note.delay == Backoff(Pending(log, note.sid) + 1)
    ensures DelaysRight(log + [note])
    ensures forall sid :: Pending(log + [note], sid) == Counted(Pending(log, sid), note, sid)
  {
    DelaysOne(log, note);
    forall sid ensures Pending(log + [note], sid) == Counted(Pending(log, sid), note, sid) {
      PendingOne(log, note, sid);
    }
  }

  lemma ForgetKeepsInv(s: State, sid: Sid)
    requires Inv(s)
    ensures Inv(Forget(s, sid))
  {
    LogOne(s.log, Reset(sid));
  }

  lemma StopKeepsInv(s: State, sid: Sid)
    requires Inv(s)
    ensures Inv(Stop(s, sid)) && Inv(Unlinked(s, sid))
  {
    ForgetKeepsInv(s, sid);
  }

  lemma ScheduleKeepsTimers(s: State, sid: Sid)
    requires TimersExact(s)
    ensures TimersExact(ScheduleReconnect(s, sid))
  {
    var c := ClearTimer(s, sid);
    assert TimersExact(c) && sid !in c.timers;
  }

  lemma ScheduleCountsOne(s: State, sid: Sid, x: Sid)
    requires s.Attempts(x) == Pending(s.log, x)
    ensures ScheduleReconnect(s, sid).Attempts(x) == Pending(ScheduleReconnect(s, sid).log, x)
  {
    PendingOne(s.log, Scheduled(sid, Backoff(s.Attempts(sid) + 1)), x);
  }

  lemma ScheduleKeepsInv(s: State, sid: Sid)
    requires Inv(s)
    ensures Inv(ScheduleReconnect(s, sid))
  {
    ScheduleKeepsTimers(s, sid);
    DelaysOne(s.log, Scheduled(sid, Backoff(s.Attempts(sid) + 1)));
    forall x ensures ScheduleReconnect(s, sid).Attempts(x) == Pending(ScheduleReconnect(s, sid).log, x) {
      ScheduleCountsOne(s, sid, x);
    }
  }

  lemma OpenKeepsInv(s: State, sid: Sid)
    requires Inv(s)
    ensures Inv(s.(attempts := s.attempts - {sid}, log := s.log + [Reset(sid)]))
  {
    LogOne(s.log, Reset(sid));
  }

  lemma NotifyKeepsInv(s: State, sid: Sid, event: string)
    requires Inv(s)
    ensures Inv(s.(log := s.log + [Notified(sid, event)]))
  {
    LogOne(s.log, Notified(sid, event));
  }

  lemma ReactKeepsInv(s: State, sid: Sid, connection: Connection)
    requires Inv(s)
    ensures Inv(React(s, sid, connection))
  {
    match connection
    case Unchanged =>
    case Opened =>
      OpenKeepsInv(s, sid);
      NotifyKeepsInv(s.(attempts := s.attempts - {sid}, log := s.log + [Reset(sid)]), sid, "linked");
      assert s.log + [Reset(sid), Notified(sid, "linked")] == s.log + [Reset(sid)] + [Notified(sid, "linked")];
    case Closed(loggedOut) => NotifyKeepsInv(s, sid, "disconnected");
  }

  lemma {:induction false} StopAllKeepsInv(s: State, sids: seq<Sid>)
    requires Inv(s)
    ensures Inv(StopAll(s, sids))
  {
    if sids != [] {
      StopAllKeepsInv(s, sids[..|sids| - 1]);
      StopKeepsInv(StopAll(s, sids[..|sids| - 1]), sids[|sids| - 1]);
    }
  }

  /** A fired timer is forgotten by the stop() its start() begins with. */
  lemma FireKeepsInv(s: State, timer: Timer)
    requires Inv(s) && timer in s.armed
    ensures Inv(Next(s, Fire(timer)))
    ensures Next(s, Fire(timer)) == BeginStart(s, s.armed[timer], true)
  {
    var sid := s.armed[timer];
    var fired := s.(armed := s.armed - {timer});
    assert fired.armed - {timer} == fired.armed;
    StopKeepsInv(s, sid);
  }

  lemma StepKeepsInv(s: State, e: Event)
    requires Inv(s) && Enabled(s, e)
    ensures Inv(Next(s, e))
  {
    match e
    case Start(sid) => StopKeepsInv(s, sid);
    case StopSession(sid) => StopKeepsInv(s, sid);
    case Unlink(sid) => StopKeepsInv(s, sid);
    case Shutdown(sids) => StopAllKeepsInv(s, sids);
    case Fire(timer) => FireKeepsInv(s, timer);
    case Dies(k) =>
    case Update(k, qr, connection) => UpdateKeepsInv(s, k, qr, connection);
    case Resume(t) => ResumeKeepsInv(s, t);
    case Reject(t) => RejectKeepsInv(s, t);
  }

  lemma RejectKeepsInv(s: State, t: Task)
    requires Inv(s)
    ensures Inv(Rejected(s, t))
  {
    NotifyKeepsInv(s, t.sid, "disconnected");
    NotifyKeepsInv(s, t.sid, "failed");
  }

  lemma UpdateKeepsInv(s: State, k: Sock, qr: bool, connection: Connection)
    requires Inv(s) && k < |s.owner|
    ensures Inv(OnUpdate(s, k, qr, connection))
  {
    NotifyKeepsInv(s, s.owner[k], "qr");
    ReactKeepsInv(s, s.owner[k], connection);
  }

  lemma ResumeKeepsInv(s: State, t: Task)
    requires Inv(s)
    ensures Inv(Resumed(s, t))
  {
    var c := s.(tasks := s.tasks - multiset{t});
    match t
    case Starting(sid, _) =>
    case Retrying(sid) => ScheduleKeepsInv(c, sid);
    case Notifying(sid) => ScheduleKeepsInv(c, sid);
    case ShowingQr(sid, connection, _) => ReactKeepsInv(c, sid, connection);
    case Clearing(sid) => NotifyKeepsInv(c, sid, "logged_out");
    case LoggingOut(_, _) =>
  }

  lemma {:induction false} RunKeepsInv(s: State, events: seq<Event>)
    requires Inv(s) && Runs(s, events)
    ensures Inv(After(s, events))
    decreases |events|
  {
    if events != [] {
      StepKeepsInv(s, events[0]);
      RunKeepsInv(Next(s, events[0]), events[1..]);
    }
  }
}
