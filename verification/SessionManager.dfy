/** The SessionManager object itself: its Maps updated in place, method by method. Each does a
    step of the protocol of Sessions and keeps its invariant; what a caller may count on
    afterwards stands beside. */
module SessionManager {
  import opened Basics
  import opened Sessions
  import opened SessionRuns

  /** No timer of the session is armed, and no handle stored. */
  predicate Timerless(s: State, sid: Sid) {
    sid !in s.timers && forall h | h in s.armed :: s.armed[h] != sid
  }

  /** A session with nothing of it left: no socket, counter, handle or armed timer. */
  predicate Gone(s: State, sid: Sid) {
    sid !in s.sockets && sid !in s.attempts && Timerless(s, sid)
  }

  /** Other sessions keep their timers. */
  ghost predicate SameTimersBut(n: State, s: State, sid: Sid) {
    && (forall x | x != sid :: x in n.timers <==> x in s.timers)
    && (forall x | x != sid && x in s.timers && x in n.timers :: n.timers[x] == s.timers[x])
  }

  /** The state before the session's own timer fired, if its handle is still stored. */
  function Unfired(s: State, sid: Sid): State {
    if sid in s.timers && s.timers[sid] !in s.armed then s.(armed := s.armed[s.timers[sid] := sid]) else s
  }

  lemma ClearForgetsFiring(s: State, sid: Sid)
    ensures ClearTimer(Unfired(s, sid), sid) == ClearTimer(s, sid)
    ensures Stop(Unfired(s, sid), sid) == Stop(s, sid) && Unlinked(Unfired(s, sid), sid) == Unlinked(s, sid)
  {
    if Unfired(s, sid) != s {
      assert s.armed[s.timers[sid] := sid] - {s.timers[sid]} == s.armed - {s.timers[sid]};
    }
  }

  lemma ExactIsUnfired(s: State, sid: Sid)
    requires TimersExact(s)
    ensures Unfired(s, sid) == s
  {
  }

  lemma ClearedIsTimerless(s: State, sid: Sid)
    requires TimersExact(s)
    ensures TimersExact(ClearTimer(s, sid)) && SameTimersBut(ClearTimer(s, sid), s, sid)
    ensures Timerless(ClearTimer(s, sid), sid)
  {
  }

  lemma ForgetLeaves(s: State, sid: Sid)
    requires TimersExact(Unfired(s, sid))
    ensures Gone(Forget(s, sid), sid) && SameTimersBut(Forget(s, sid), s, sid)
  {
    ClearForgetsFiring(s, sid);
    ClearedIsTimerless(Unfired(s, sid), sid);
  }

  /** What stop leaves behind: nothing of the session, its socket not working unless it is
      still to be logged out, others alone. */
  lemma StopLeaves(s: State, sid: Sid, keepAuth: bool)
    requires Inv(Unfired(s, sid))
    ensures var n := if keepAuth then Stop(s, sid) else Unlinked(s, sid);
      && Inv(n) && Gone(n, sid) && SameTimersBut(n, s, sid) && n.sockets == s.sockets - {sid}
      && (sid in s.sockets ==>
            if keepAuth then s.sockets[sid] !in n.live else LoggingOut(sid, s.sockets[sid]) in n.tasks)
  {
    ClearForgetsFiring(s, sid);
    StopKeepsInv(Unfired(s, sid), sid);
    ForgetLeaves(s, sid);
  }

  /** What scheduleReconnect leaves behind: one timer, of the right delay, others alone. */
  lemma ScheduleLeaves(s: State, sid: Sid)
    requires Inv(s)
    ensures var n := ScheduleReconnect(s, sid);
      && Inv(n) && OneTimer(n, sid) && SameTimersBut(n, s, sid)
      && n.log == s.log + [Scheduled(sid, Backoff(Pending(s.log, sid) + 1))]
  {
    ScheduleKeepsInv(s, sid);
    assert s.Attempts(sid) == Pending(s.log, sid);
  }

  class SessionManager {
    var sockets: map<Sid, Sock>
    var reconnectAttempts: map<Sid, nat>
    var timers: map<Sid, Timer>
    // The event loop, the sockets made so far and the calls suspended at an await.
    var armed: map<Timer, Sid>
    var nextTimer: nat
    var owner: seq<Sid>
    var live: set<Sock>
    var tasks: multiset<Task>
    var log: seq<Note>

    function Abs(): State
      reads this
    {
      State(sockets, reconnectAttempts, timers, armed, nextTimer, owner, live, tasks, log)
    }

    constructor ()
      ensures Abs() == Boot && Inv(Abs())
    {
      sockets, reconnectAttempts, timers, armed, nextTimer := map[], map[], map[], map[], 0;
      owner, live, tasks, log := [], {}, multiset{}, [];
    }

    /** clearTimer: the session is left without handle and without armed timer. */
    method ClearReconnectTimer(sid: Sid)
      requires TimersExact(Unfired(Abs(), sid))
      modifies this
      ensures Abs() == ClearTimer(old(Abs()), sid) && TimersExact(Abs())
      ensures Timerless(Abs(), sid) && SameTimersBut(Abs(), old(Abs()), sid)
    {
      ClearForgetsFiring(Abs(), sid);
      ClearedIsTimerless(Unfired(Abs(), sid), sid);
      if sid in timers {
        armed := armed - {timers[sid]};
        timers := timers - {sid};
      }
    }

    /** The runtime's setTimeout, and its handle stored. */
    method SetTimer(sid: Sid, delay: nat)
      modifies this
      ensures Abs() == Arm(old(Abs()), sid, delay)
    {
      var timer := nextTimer;
      armed := armed[timer := sid];
      nextTimer := nextTimer + 1;
      timers := timers[sid := timer];
      log := log + [Scheduled(sid, delay)];
    }

    /** scheduleReconnect: exactly one timer is armed for the session, whatever there was, and
        its delay is the backoff of the reconnects since the last stop or open. */
    method SetReconnectTimer(sid: Sid)
      requires Inv(Abs())
      modifies this
      ensures Abs() == ScheduleReconnect(old(Abs()), sid) && Inv(Abs())
      ensures OneTimer(Abs(), sid) && SameTimersBut(Abs(), old(Abs()), sid)
      ensures log == old(log) + [Scheduled(sid, Backoff(Pending(old(log), sid) + 1))]
    {
      ghost var before := Abs();
      var attempt := 1;
      if sid in reconnectAttempts {
        attempt := reconnectAttempts[sid] + 1;
      }
      reconnectAttempts := reconnectAttempts[sid := attempt];
      ghost var counted := before.(attempts := before.attempts[sid := before.Attempts(sid) + 1]);
      assert Abs() == counted;
      ExactIsUnfired(counted, sid);
      ScheduleLeaves(before, sid);
      var delay := Backoff(attempt);
      ClearReconnectTimer(sid);
      assert Abs() == ClearTimer(counted, sid);
      SetTimer(sid, delay);
      assert Abs() == ScheduleReconnect(before, sid);
    }

    /** stop(), up to the await on logout() if it unlinks: nothing of the session is left; its
        socket no longer works, or a logout() that may fail is to end it. */
    method StopSocket(sid: Sid, keepAuth: bool)
      requires Inv(Unfired(Abs(), sid))
      modifies this
      ensures Abs() == (if keepAuth then Stop(old(Abs()), sid) else Unlinked(old(Abs()), sid)) && Inv(Abs())
      ensures Gone(Abs(), sid) && SameTimersBut(Abs(), old(Abs()), sid) && sockets == old(sockets) - {sid}
      ensures sid in old(sockets) ==>
        if keepAuth then old(sockets)[sid] !in live else LoggingOut(sid, old(sockets)[sid]) in tasks
    {
      ghost var before := Abs();
      var entry := ForgetSession(sid);
      if entry.Some? {
        if keepAuth {
          live := live - {entry.value};
        } else {
          tasks := tasks + multiset{LoggingOut(sid, entry.value)};
        }
      }
      assert Abs() == if keepAuth then Stop(before, sid) else Unlinked(before, sid);
      StopLeaves(before, sid, keepAuth);
    }

    /** The beginning of stop(): its clean-up of the Maps. */
    method ForgetSession(sid: Sid) returns (entry: Option<Sock>)
      requires TimersExact(Unfired(Abs(), sid))
      modifies this
      ensures Abs() == Forget(old(Abs()), sid)
      ensures entry == if sid in old(sockets) then Some(old(sockets)[sid]) else None
    {
      ClearReconnectTimer(sid);
      reconnectAttempts := reconnectAttempts - {sid};
      log := log + [Reset(sid)];
      entry := if sid in sockets then Some(sockets[sid]) else None;
      sockets := sockets - {sid};
    }

    /** start() up to its first await: the session is gone until it goes on. */
    method StartSocket(sid: Sid, byTimer: bool)
      requires Inv(Unfired(Abs(), sid))
      modifies this
      ensures Abs() == BeginStart(old(Abs()), sid, byTimer) && Inv(Abs())
      ensures Gone(Abs(), sid) && Enabled(Abs(), Resume(Starting(sid, byTimer)))
    {
      StopSocket(sid, true);
      tasks := tasks + multiset{Starting(sid, byTimer)};
    }

    /** The timer's callback, up to the first await of its start(): neither the fired timer nor
        its handle is left behind. */
    method FireTimer(timer: Timer)
      requires Inv(Abs()) && timer in armed
      modifies this
      ensures Abs() == Next(old(Abs()), Fire(timer)) && Inv(Abs())
      ensures Gone(Abs(), old(armed)[timer]) && timer !in armed && timer !in timers.Values
    {
      var sid := armed[timer];
      FireKeepsInv(Abs(), timer);
      armed := armed - {timer};
      assert old(armed) == armed[timer := sid];
      assert Unfired(Abs(), sid) == old(Abs());
      StartSocket(sid, true);
    }

    /** start() after its last await: a socket never seen before works and is the only current
        one of the session. */
    method InstallSocket(sid: Sid, byTimer: bool) returns (sock: Sock)
      requires Inv(Abs()) && Starting(sid, byTimer) in tasks
      modifies this
      ensures Abs() == Next(old(Abs()), Resume(Starting(sid, byTimer))) && Inv(Abs())
      ensures sock == |old(owner)| && sock in live
      ensures forall k | 0 <= k < |owner| && owner[k] == sid :: Abs().Current(k) <==> k == sock
    {
      StepKeepsInv(Abs(), Resume(Starting(sid, byTimer)));
      tasks := tasks - multiset{Starting(sid, byTimer)};
      sock := |owner|;
      owner := owner + [sid];
      sockets := sockets[sid := sock];
      live := live + {sock};
    }

    /** The connection.update handler, up to its first await: a socket that lost its place
        changes nothing, and no socket's update touches a socket or a timer yet. */
    method ConnectionUpdate(sock: Sock, qr: bool, connection: Connection)
      requires Inv(Abs()) && Enabled(Abs(), Update(sock, qr, connection))
      modifies this
      ensures Abs() == Next(old(Abs()), Update(sock, qr, connection)) && Inv(Abs())
      ensures !old(Abs()).Current(sock) ==> Abs() == old(Abs())
      ensures sockets == old(sockets) && timers == old(timers) && armed == old(armed)
      ensures old(Abs()).Current(sock) && !qr && connection.Opened? ==> Pending(log, owner[sock]) == 0
    {
      StepKeepsInv(Abs(), Update(sock, qr, connection));
      var sid := owner[sock];
      if sid !in sockets || sockets[sid] != sock {
        return;
      }
      if qr {
        tasks := tasks + multiset{ShowingQr(sid, connection, false)};
        log := log + [Notified(sid, "qr")];
        return;
      }
      HandleConnection(sid, connection);
    }

    /** Its `connection` branches: an open clears the counter; a close only suspends the handler
        before its clean-up or its reconnect. */
    method HandleConnection(sid: Sid, connection: Connection)
      requires Inv(Abs())
      modifies this
      ensures Abs() == React(old(Abs()), sid, connection) && Inv(Abs())
      ensures connection.Opened? ==> sid !in reconnectAttempts && Pending(log, sid) == 0
      ensures connection.Closed? ==>
        Enabled(Abs(), Resume(if connection.loggedOut then Clearing(sid) else Notifying(sid)))
      ensures sockets == old(sockets) && timers == old(timers) && armed == old(armed)
    {
      ReactKeepsInv(Abs(), sid, connection);
      assert connection.Opened? ==> React(Abs(), sid, connection).Attempts(sid) == 0;
      match connection
      case Unchanged =>
      case Opened =>
        reconnectAttempts := reconnectAttempts - {sid};
        log := log + [Reset(sid), Notified(sid, "linked")];
      case Closed(loggedOut) =>
        if loggedOut {
          tasks := tasks + multiset{Clearing(sid)};
        } else {
          log := log + [Notified(sid, "disconnected")];
          tasks := tasks + multiset{Notifying(sid)};
        }
    }

    /** The end of a log-out: the session's socket goes, whichever it is by now. */
    method ForgetSocket(sid: Sid)
      requires Inv(Abs())
      modifies this
      ensures Abs() == old(Abs()).(
        sockets := old(sockets) - {sid}, log := old(log) + [Notified(sid, "logged_out")])
      ensures Inv(Abs())
    {
      NotifyKeepsInv(Abs(), sid, "logged_out");
      sockets := sockets - {sid};
      log := log + [Notified(sid, "logged_out")];
    }

    /** A handler or a timer's callback going on after the await it was suspended at: it arms
        the one timer of its session, stopped in the meantime or not, or drops its socket, or has
        logged out the one it held. */
    method ResumeAfterAwait(t: Task)
      requires Inv(Abs()) && t in tasks && !t.Starting?
      modifies this
      ensures Abs() == Next(old(Abs()), Resume(t)) && Inv(Abs())
      ensures t.Retrying? || t.Notifying? ==> OneTimer(Abs(), t.sid) && sockets == old(sockets)
      ensures t.Clearing? ==> t.sid !in sockets && timers == old(timers)
      ensures t.LoggingOut? ==> t.sock !in live && sockets == old(sockets) && timers == old(timers)
    {
      ghost var before := Abs();
      tasks := tasks - multiset{t};
      ghost var c := Abs();
      assert c == before.(tasks := tasks) && Inv(c);
      assert Next(before, Resume(t)) == Resumed(before, t);
      match t
      case Retrying(sid) => SetReconnectTimer(sid);
      case Notifying(sid) => SetReconnectTimer(sid);
      case ShowingQr(sid, connection, _) => HandleConnection(sid, connection);
      case Clearing(sid) => ForgetSocket(sid);
      case LoggingOut(_, sock) => live := live - {sock};
    }

    /** What a suspended call awaits throws: a timer's start() tells that the session is down
        and will be tried again, a QR not shown is reported, anything else just ends. */
    method RejectAwait(t: Task)
      requires Inv(Abs()) && t in tasks
      modifies this
      ensures Abs() == Next(old(Abs()), Reject(t)) && Inv(Abs())
      ensures t.Starting? && t.byTimer ==>
        Retrying(t.sid) in tasks && log == old(log) + [Notified(t.sid, "disconnected")]
      ensures t.ShowingQr? && !t.failed ==>
        ShowingQr(t.sid, t.connection, true) in tasks && log == old(log) + [Notified(t.sid, "failed")]
      ensures !(t.Starting? && t.byTimer) && !(t.ShowingQr? && !t.failed) ==>
        tasks == old(tasks) - multiset{t} && log == old(log)
      ensures sockets == old(sockets) && timers == old(timers) && armed == old(armed)
    {
      StepKeepsInv(Abs(), Reject(t));
      tasks := tasks - multiset{t};
      if t.Starting? && t.byTimer {
        log := log + [Notified(t.sid, "disconnected")];
        tasks := tasks + multiset{Retrying(t.sid)};
      } else if t.ShowingQr? && !t.failed {
        log := log + [Notified(t.sid, "failed")];
        tasks := tasks + multiset{ShowingQr(t.sid, t.connection, true)};
      }
    }

    /** shutdown(): stop every session that has a socket, and no other. */
    method StopEverything() returns (ghost sids: seq<Sid>)
      requires Inv(Abs())
      modifies this
      ensures Enabled(old(Abs()), Shutdown(sids))
      ensures Abs() == Next(old(Abs()), Shutdown(sids)) && Inv(Abs())
      ensures sockets == map[]
      ensures forall x :: x in timers <==> x in old(timers) && x !in old(sockets)
    {
      sids := [];
      ghost var start := Abs();
      var left := sockets.Keys;
      while left != {}
        invariant left + (set sid | sid in sids) == start.sockets.Keys
        invariant Abs() == StopAll(start, sids) && Inv(Abs())
        decreases left
      {
        var sid :| sid in left;
        StopSocket(sid, true);
        left := left - {sid};
        assert (sids + [sid])[..|sids|] == sids;
        sids := sids + [sid];
      }
      ShutdownMissesTimers(start, sids);
      StopAllEffect(start, sids);
    }
  }
}
