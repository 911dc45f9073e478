/** What holds over whole runs of the session manager, and exactly where its intended
    behaviour fails. */
module SessionRuns {
  import opened Sessions

  /** Every armed timer is the stored handle of its session, so none is orphaned and no
      session has two. */
  lemma NoTimerIsOrphaned(events: seq<Event>)
    requires Runs(Boot, events)
    ensures var s := After(Boot, events);
      && TimersExact(s)
      && (forall g, h | g in s.armed && h in s.armed :: s.armed[g] == s.armed[h] ==> g == h)
  {
    RunKeepsInv(Boot, events);
  }

  // ----- A socket's turn -----

  function SidsOf(sids: seq<Sid>): set<Sid> { set sid | sid in sids }

  lemma WithoutOneMore<V>(m: map<Sid, V>, init: seq<Sid>, last: Sid)
    ensures m - SidsOf(init + [last]) == (m - SidsOf(init)) - {last}
  {
    assert SidsOf(init + [last]) == SidsOf(init) + {last};
  }

  /** The session's entries go, everything else stays. */
  lemma StopFields(s: State, sid: Sid)
    ensures var n := Stop(s, sid);
      && n.sockets == s.sockets - {sid} && n.timers == s.timers - {sid}
      && n.owner == s.owner && n.tasks == s.tasks && n.live <= s.live
  {
    assert sid !in s.timers ==> s.timers - {sid} == s.timers;
  }

  lemma {:induction false} StopAllFields(s: State, sids: seq<Sid>)
    ensures var n := StopAll(s, sids);
      && n.sockets == s.sockets - SidsOf(sids) && n.timers == s.timers - SidsOf(sids)
      && n.owner == s.owner && n.tasks == s.tasks && n.live <= s.live
  {
    if sids != [] {
      var init, last := sids[..|sids| - 1], sids[|sids| - 1];
      StopAllFields(s, init);
      StopFields(StopAll(s, init), last);
      WithoutOneMore(s.sockets, init, last);
      WithoutOneMore(s.timers, init, last);
      assert sids == init + [last];
    }
  }

  lemma {:induction false} StopAllLive(s: State, sids: seq<Sid>)
    ensures var n := StopAll(s, sids);
      && (forall k | k in s.live && k !in n.live :: k in s.sockets.Values)
      && (forall sid | sid in sids && sid in s.sockets :: s.sockets[sid] !in n.live)
  {
    if sids != [] {
      var init, last := sids[..|sids| - 1], sids[|sids| - 1];
      StopAllFields(s, init);
      StopAllLive(s, init);
      assert sids == init + [last];
    }
  }

  lemma StopAllEffect(s: State, sids: seq<Sid>)
    ensures var n, gone := StopAll(s, sids), set sid | sid in sids;
      && n.sockets == s.sockets - gone && n.timers == s.timers - gone
      && n.owner == s.owner && n.tasks == s.tasks && n.live <= s.live
      && (forall k | k in s.live && k !in n.live :: k in s.sockets.Values)
      && (forall sid | sid in gone && sid in s.sockets :: s.sockets[sid] !in n.live)
  {
    StopAllFields(s, sids);
    StopAllLive(s, sids);
    assert SidsOf(sids) == set sid | sid in sids;
  }

  /** From s to n no socket comes in, and a session loses its socket by its end only, but for
      a session whose log-out clean-up finishes, and for one being unlinked. */
  predicate Shrinks(n: State, s: State, e: Event) {
    && n.owner == s.owner && n.live <= s.live
    && (forall sid | sid in n.sockets :: sid in s.sockets && n.sockets[sid] == s.sockets[sid])
    && (forall sid | sid in s.sockets && sid !in n.sockets ::
          s.sockets[sid] !in n.live || e == Resume(Clearing(sid)) || e == Unlink(sid))
  }

  lemma StopShrinks(s: State, sid: Sid, e: Event)
    ensures Shrinks(Stop(s, sid), s, e)
  {
  }

  lemma UpdateShrinks(s: State, k: Sock, qr: bool, connection: Connection)
    requires k < |s.owner|
    ensures Shrinks(OnUpdate(s, k, qr, connection), s, Update(k, qr, connection))
  {
  }

  lemma ResumeShrinks(s: State, t: Task)
    requires !t.Starting?
    ensures Shrinks(Resumed(s, t), s, Resume(t))
  {
    match t
    case Retrying(_) =>
    case ShowingQr(_, _, _) =>
    case Notifying(_) =>
    case Clearing(_) =>
    case LoggingOut(_, _) =>
  }

  /** Only the end of a start() puts a socket in place, and always a new one. */
  lemma SocketsStep(s: State, e: Event)
    requires Enabled(s, e)
    ensures if e.Resume? && e.task.Starting?
            then Next(s, e) == Install(s.(tasks := s.tasks - multiset{e.task}), e.task.sid)
            else Shrinks(Next(s, e), s, e)
  {
    match e
    case Start(sid) => StopShrinks(s, sid, e);
    case StopSession(sid) => StopShrinks(s, sid, e);
    case Unlink(sid) =>
    case Shutdown(sids) => StopAllEffect(s, sids);
    case Fire(timer) => StopShrinks(s.(armed := s.armed - {timer}), s.armed[timer], e);
    case Dies(_) =>
    case Update(k, qr, connection) => UpdateShrinks(s, k, qr, connection);
    case Resume(t) =>
      if !t.Starting? {
        ResumeShrinks(s, t);
      }
    case Reject(_) =>
  }

  lemma LostStaysLost(s: State, e: Event, k: Sock)
    requires SocketsOwned(s) && Enabled(s, e) && k < |s.owner| && !s.Current(k)
    ensures k < |Next(s, e).owner| && !Next(s, e).Current(k)
  {
    SocketsStep(s, e);
  }

  lemma {:induction false} LostInRun(s: State, events: seq<Event>, k: Sock)
    requires Inv(s) && Runs(s, events) && k < |s.owner| && !s.Current(k)
    ensures k < |After(s, events).owner| && !After(s, events).Current(k)
    decreases |events|
  {
    if events != [] {
      StepKeepsInv(s, events[0]);
      LostStaysLost(s, events[0], k);
      LostInRun(Next(s, events[0]), events[1..], k);
    }
  }

  /** Once a socket has lost its place (replaced or stopped), no later connection.update of
      it changes anything: no notification, no counter, no timer, no suspended call. */
  lemma LostSocketIsSilent(s: State, events: seq<Event>, k: Sock, qr: bool, connection: Connection)
    requires Inv(s) && Runs(s, events) && k < |s.owner| && !s.Current(k)
    requires Enabled(After(s, events), Update(k, qr, connection))
    ensures Next(After(s, events), Update(k, qr, connection)) == After(s, events)
  {
    LostInRun(s, events, k);
  }

  lemma {:induction false} RunsConcat(s: State, a: seq<Event>, b: seq<Event>)
    requires Runs(s, a + b)
    ensures Runs(s, a) && Runs(After(s, a), b) && After(s, a + b) == After(After(s, a), b)
    decreases |a|
  {
    if a == [] {
      assert a + b == b;
    } else {
      assert (a + b)[0] == a[0] && (a + b)[1..] == a[1..] + b;
      RunsConcat(Next(s, a[0]), a[1..], b);
    }
  }

  /** A socket is current for one contiguous stretch of every run. */
  lemma OneStretch(a: seq<Event>, b: seq<Event>, c: seq<Event>, k: Sock)
    requires Runs(Boot, a + b + c)
    ensures Runs(Boot, a) && Runs(Boot, a + b)
    ensures After(Boot, a).Current(k) && After(Boot, a + b + c).Current(k) ==>
            After(Boot, a + b).Current(k)
  {
    RunsConcat(Boot, a + b, c);
    RunsConcat(Boot, a, b);
    RunKeepsInv(Boot, a);
    RunKeepsInv(Boot, a + b);
    if After(Boot, a).Current(k) && !After(Boot, a + b).Current(k) {
      OwnerGrows(After(Boot, a), b);
      LostInRun(After(Boot, a + b), c, k);
    }
  }

  lemma {:induction false} OwnerGrows(s: State, events: seq<Event>)
    requires Runs(s, events)
    ensures s.owner <= After(s, events).owner
    decreases |events|
  {
    if events != [] {
      SocketsStep(s, events[0]);
      OwnerGrows(Next(s, events[0]), events[1..]);
    }
  }

  // ----- When stop() is final -----

  /** A suspended call that brings the session back after its stop: no check follows the
      await it is suspended at. */
  predicate Revives(t: Task, sid: Sid) {
    && t.sid == sid
    && (t.Starting? || t.Retrying? || t.Notifying? || (t.ShowingQr? && t.connection == Closed(false)))
  }

  predicate Settled(s: State, sid: Sid) {
    sid !in s.sockets && sid !in s.timers && forall t | t in s.tasks :: !Revives(t, sid)
  }

  lemma SettledStep(s: State, e: Event, sid: Sid)
    requires Inv(s) && Settled(s, sid) && Enabled(s, e) && e != Start(sid)
    ensures Settled(Next(s, e), sid)
  {
    match e
    case Start(x) => SettledStart(s, x, false, sid);
    case StopSession(x) =>
    case Unlink(x) =>
    case Shutdown(sids) => StopAllEffect(s, sids);
    case Fire(timer) =>
      FireKeepsInv(s, timer);
      SettledStart(s, s.armed[timer], true, sid);
    case Dies(k) =>
    case Update(k, qr, connection) => SettledUpdate(s, k, qr, connection, sid);
    case Resume(t) => SettledResume(s, t, sid);
    case Reject(t) => SettledReject(s, t, sid);
  }

  lemma SettledReject(s: State, t: Task, sid: Sid)
    requires Settled(s, sid) && t in s.tasks
    ensures Settled(Rejected(s, t), sid)
  {
    assert !Revives(t, sid);
  }

  lemma SettledStart(s: State, x: Sid, byTimer: bool, sid: Sid)
    requires Settled(s, sid) && x != sid
    ensures Settled(BeginStart(s, x, byTimer), sid)
  {
  }

  lemma SettledUpdate(s: State, k: Sock, qr: bool, connection: Connection, sid: Sid)
    requires Settled(s, sid) && k < |s.owner|
    ensures Settled(OnUpdate(s, k, qr, connection), sid)
  {
    if s.owner[k] == sid {
      assert !s.Current(k);
    }
  }

  lemma SettledReact(s: State, x: Sid, connection: Connection, sid: Sid)
    requires Settled(s, sid) && (x != sid || connection != Closed(false))
    ensures Settled(React(s, x, connection), sid)
  {
  }

  lemma SettledResume(s: State, t: Task, sid: Sid)
    requires Settled(s, sid) && t in s.tasks
    ensures Settled(Resumed(s, t), sid)
  {
    assert !Revives(t, sid);
    var c := s.(tasks := s.tasks - multiset{t});
    assert Settled(c, sid);
    match t
    case Starting(_, _) =>
    case Retrying(_) =>
    case ShowingQr(x, connection, _) => SettledReact(c, x, connection, sid);
    case Notifying(_) =>
    case Clearing(_) =>
    case LoggingOut(_, _) =>
  }

  lemma {:induction false} SettledRun(s: State, events: seq<Event>, sid: Sid)
    requires Inv(s) && Settled(s, sid) && Runs(s, events) && Start(sid) !in events
    ensures Settled(After(s, events), sid)
    decreases |events|
  {
    if events != [] {
      SettledStep(s, events[0], sid);
      StepKeepsInv(s, events[0]);
      SettledRun(Next(s, events[0]), events[1..], sid);
    }
  }

  ghost predicate StaysStopped(s: State, sid: Sid) {
    forall events | Runs(s, events) && Start(sid) !in events ::
      sid !in After(s, events).sockets && sid !in After(s, events).timers
  }

  /** After stop(), keeping the credentials or unlinking, the session stays without socket and
      timer until it is started again, exactly when no suspended call of it was about to
      revive it. */
  lemma WhenStopIsFinal(s: State, sid: Sid)
    requires Inv(s)
    ensures StaysStopped(Stop(s, sid), sid) <==> forall t | t in s.tasks :: !Revives(t, sid)
    ensures StaysStopped(Unlinked(s, sid), sid) <==> forall t | t in s.tasks :: !Revives(t, sid)
  {
    StopKeepsInv(s, sid);
    WhenGoneIsFinal(Stop(s, sid), sid);
    WhenGoneIsFinal(Unlinked(s, sid), sid);
    assert forall t | Revives(t, sid) :: t in Unlinked(s, sid).tasks <==> t in s.tasks;
  }

  lemma WhenGoneIsFinal(n: State, sid: Sid)
    requires Inv(n) && sid !in n.sockets && sid !in n.timers
    ensures StaysStopped(n, sid) <==> forall t | t in n.tasks :: !Revives(t, sid)
  {
    if forall t | t in n.tasks :: !Revives(t, sid) {
      forall events | Runs(n, events) && Start(sid) !in events
        ensures sid !in After(n, events).sockets && sid !in After(n, events).timers
      {
        SettledRun(n, events, sid);
      }
    } else {
      var t :| t in n.tasks && Revives(t, sid);
      ReviveRun(n, t, sid);
    }
  }

  lemma ReviveRun(n: State, t: Task, sid: Sid)
    requires t in n.tasks && Revives(t, sid)
    ensures !StaysStopped(n, sid)
  {
    var one := Next(n, Resume(t));
    if t.ShowingQr? {
      var again := Resume(Notifying(sid));
      RunTwo(n, Resume(t), again);
      assert Start(sid) !in [Resume(t), again];
    } else {
      RunOne(n, Resume(t));
      assert Start(sid) !in [Resume(t)];
    }
  }

  lemma RunOne(s: State, e: Event)
    requires Enabled(s, e)
    ensures Runs(s, [e]) && After(s, [e]) == Next(s, e)
  {
    assert [e][1..] == [];
  }

  lemma RunTwo(s: State, e: Event, f: Event)
    requires Enabled(s, e) && Enabled(Next(s, e), f)
    ensures Runs(s, [e, f]) && After(s, [e, f]) == Next(Next(s, e), f)
  {
    assert [e, f][1..] == [f];
    RunOne(Next(s, e), f);
  }

  lemma RunThree(s: State, e: Event, f: Event, g: Event)
    requires Enabled(s, e) && Enabled(Next(s, e), f) && Enabled(Next(Next(s, e), f), g)
    ensures Runs(s, [e, f, g]) && After(s, [e, f, g]) == Next(Next(Next(s, e), f), g)
  {
    assert [e, f, g][1..] == [f, g];
    RunTwo(Next(s, e), f, g);
  }

  // ----- When a working socket is lost -----

  /** An unlinking stop() still holds the socket. */
  predicate BeingLoggedOut(s: State, k: Sock) {
    k < |s.owner| && LoggingOut(s.owner[k], k) in s.tasks
  }

  /** Something refers to the socket: the Map, or a stop() that is logging it out. */
  predicate Held(s: State, k: Sock) { s.Current(k) || BeingLoggedOut(s, k) }

  /** A socket is logged out once at most, by the session it was made for, and has lost its
      place by then. */
  predicate LogoutsOwned(s: State) {
    forall t | t in s.tasks && t.LoggingOut? ::
      t.sock < |s.owner| && s.owner[t.sock] == t.sid && !s.Current(t.sock) && s.tasks[t] == 1
  }

  /** What a step adds to the suspended calls, and what it takes from them. */
  lemma LogoutTasks(s: State, e: Event, t: Task)
    requires Enabled(s, e) && t.LoggingOut?
    ensures var n := Next(s, e);
      n.tasks[t] ==
        if e.Unlink? && e.sid in s.sockets && t == LoggingOut(e.sid, s.sockets[e.sid]) then s.tasks[t] + 1
        else if e == Resume(t) || e == Reject(t) then s.tasks[t] - 1
        else s.tasks[t]
  {
    match e
    case Shutdown(sids) => StopAllEffect(s, sids);
    case Resume(u) => ResumeLogoutTasks(s, u, t);
    case Reject(u) => RejectLogoutTasks(s, u, t);
    case _ =>
  }

  lemma RejectLogoutTasks(s: State, u: Task, t: Task)
    requires u in s.tasks && Enabled(s, Reject(u)) && t.LoggingOut?
    ensures Next(s, Reject(u)).tasks[t] == if u == t then s.tasks[t] - 1 else s.tasks[t]
  {
  }

  lemma ResumeLogoutTasks(s: State, u: Task, t: Task)
    requires u in s.tasks && t.LoggingOut?
    ensures Resumed(s, u).tasks[t] == if u == t then s.tasks[t] - 1 else s.tasks[t]
  {
    match u
    case Starting(_, _) =>
    case Retrying(_) =>
    case Notifying(_) =>
    case ShowingQr(_, _, _) =>
    case Clearing(_) =>
    case LoggingOut(_, _) =>
  }

  lemma StepKeepsLogouts(s: State, e: Event)
    requires SocketsOwned(s) && LogoutsOwned(s) && Enabled(s, e)
    ensures LogoutsOwned(Next(s, e))
  {
    var n := Next(s, e);
    SocketsStep(s, e);
    forall t | t in n.tasks && t.LoggingOut?
      ensures t.sock < |n.owner| && n.owner[t.sock] == t.sid && !n.Current(t.sock) && n.tasks[t] == 1
    {
      LogoutTasks(s, e, t);
      if t in s.tasks {
        LostStaysLost(s, e, t.sock);
      }
    }
  }

  /** So in every state a run from the start can reach. */
  lemma {:induction false} RunKeepsLogouts(s: State, events: seq<Event>)
    requires Inv(s) && LogoutsOwned(s) && Runs(s, events)
    ensures LogoutsOwned(After(s, events))
    decreases |events|
  {
    if events != [] {
      StepKeepsInv(s, events[0]);
      StepKeepsLogouts(s, events[0]);
      RunKeepsLogouts(Next(s, events[0]), events[1..]);
    }
  }

  /** The step lets go of a working socket without ending it: a start() finishing over one (two
      starts overlapped), a log-out clean-up finishing after a new start, or the logout() of
      an unlink failing. */
  predicate Displaces(s: State, e: Event) {
    || (&& e.Resume? && (e.task.Starting? || e.task.Clearing?)
        && e.task.sid in s.sockets && s.sockets[e.task.sid] in s.live)
    || (e.Reject? && e.task.LoggingOut? && e.task.sock in s.live)
  }

  /** Working sockets that nothing refers to any more. */
  ghost predicate Leaks(s: State, e: Event)
    requires Enabled(s, e)
  {
    exists k :: k in s.live && Held(s, k) && k in Next(s, e).live && !Held(Next(s, e), k)
  }

  lemma DisplacedIsLost(s: State, e: Event, k: Sock)
    requires SocketsOwned(s) && LogoutsOwned(s) && Enabled(s, e) && Displaces(s, e)
    requires k == if e.Resume? then s.sockets[e.task.sid] else e.task.sock
    ensures k in s.live && Held(s, k) && k in Next(s, e).live && !Held(Next(s, e), k)
  {
    LogoutTasks(s, e, LoggingOut(s.owner[k], k));
    if e.Reject? {
      LostStaysLost(s, e, k);
    }
  }

  lemma WhenASocketLeaks(s: State, e: Event)
    requires SocketsOwned(s) && LogoutsOwned(s) && Enabled(s, e)
    ensures Leaks(s, e) <==> Displaces(s, e)
  {
    if Displaces(s, e) {
      DisplacedIsLost(s, e, if e.Resume? then s.sockets[e.task.sid] else e.task.sock);
    } else {
      forall k | k in s.live && Held(s, k) && k in Next(s, e).live ensures Held(Next(s, e), k) {
        KeepsWorking(s, e, k);
      }
    }
  }

  lemma KeepsCurrent(s: State, e: Event, k: Sock)
    requires SocketsOwned(s) && Enabled(s, e) && !Displaces(s, e)
    requires k in s.live && s.Current(k) && k in Next(s, e).live
    ensures Next(s, e).Current(k) || e == Unlink(s.owner[k])
  {
    SocketsStep(s, e);
  }

  lemma OwnersStay(s: State, e: Event, k: Sock)
    requires Enabled(s, e) && k < |s.owner|
    ensures k < |Next(s, e).owner| && Next(s, e).owner[k] == s.owner[k]
  {
    SocketsStep(s, e);
  }

  lemma LoggedOutIsDead(s: State, t: Task)
    requires t in s.tasks && t.LoggingOut?
    ensures t.sock !in Next(s, Resume(t)).live
  {
  }

  lemma KeepsWorking(s: State, e: Event, k: Sock)
    requires SocketsOwned(s) && LogoutsOwned(s) && Enabled(s, e) && !Displaces(s, e)
    requires k in s.live && Held(s, k) && k in Next(s, e).live
    ensures Held(Next(s, e), k)
  {
    var t := LoggingOut(s.owner[k], k);
    OwnersStay(s, e, k);
    LogoutTasks(s, e, t);
    if s.Current(k) {
      KeepsCurrent(s, e, k);
    } else if e == Resume(t) {
      LoggedOutIsDead(s, t);
    }
  }

  /** A step makes at most its own new socket work, and that one is current. */
  lemma NewSocketsAreCurrent(s: State, e: Event)
    requires SocketsOwned(s) && Enabled(s, e)
    ensures forall k | k in Next(s, e).live && k !in s.live :: Next(s, e).Current(k)
  {
    SocketsStep(s, e);
  }

  /** Without such a step, every working socket is the current one of its session or being
      logged out. */
  lemma {:induction false} NoSocketLeaks(s: State, events: seq<Event>)
    requires Inv(s) && LogoutsOwned(s) && Runs(s, events) && forall k | k in s.live :: Held(s, k)
    requires forall i | 0 <= i < |events| ::
      Runs(s, events[..i]) ==> !Displaces(After(s, events[..i]), events[i])
    ensures forall k | k in After(s, events).live :: Held(After(s, events), k)
    decreases |events|
  {
    if events != [] {
      var n := Next(s, events[0]);
      StepKeepsInv(s, events[0]);
      StepKeepsLogouts(s, events[0]);
      assert Runs(s, events[..0]) && After(s, events[..0]) == s;
      WhenASocketLeaks(s, events[0]);
      NewSocketsAreCurrent(s, events[0]);
      assert forall k | k in n.live && k in s.live :: Held(s, k) && Held(n, k);
      forall i | 0 <= i < |events[1..]| && Runs(n, events[1..][..i])
        ensures !Displaces(After(n, events[1..][..i]), events[1..][i])
      {
        PrefixRuns(s, events, i);
      }
      NoSocketLeaks(n, events[1..]);
    }
  }

  lemma PrefixRuns(s: State, events: seq<Event>, i: nat)
    requires i < |events| - 1 && Runs(s, events[..1]) && Runs(Next(s, events[0]), events[1..][..i])
    ensures Runs(s, events[..i + 1])
    ensures After(s, events[..i + 1]) == After(Next(s, events[0]), events[1..][..i])
  {
    assert events[..i + 1][1..] == events[1..][..i];
  }

  /** Two overlapping starts of one session do lose a working socket. */
  lemma OverlappingStartsLeak(sid: Sid)
    ensures var starting := Resume(Starting(sid, false));
      var events := [Start(sid), Start(sid), starting, starting];
      Runs(Boot, events) && 0 in After(Boot, events).live && !After(Boot, events).Current(0)
  {
    var starting := Resume(Starting(sid, false));
    var a := Next(Boot, Start(sid));
    var b := Next(a, Start(sid));
    var events := [Start(sid), Start(sid), starting, starting];
    assert events[1..] == [Start(sid), starting, starting];
    assert events[1..][1..] == [starting, starting];
    RunTwo(b, starting, starting);
    assert Runs(a, events[1..]);
  }

  /** Unlinking while WhatsApp cannot be reached: the logout fails, and the socket works on
      though no stop() can find it any more. */
  lemma FailedLogoutLeaks(sid: Sid)
    ensures var logout := LoggingOut(sid, 0);
      var events := [Start(sid), Resume(Starting(sid, false)), Unlink(sid), Reject(logout)];
      Runs(Boot, events) && 0 in After(Boot, events).live && !Held(After(Boot, events), 0)
  {
    var logout := LoggingOut(sid, 0);
    var a := Next(Boot, Start(sid));
    var b := Next(a, Resume(Starting(sid, false)));
    var events := [Start(sid), Resume(Starting(sid, false)), Unlink(sid), Reject(logout)];
    UnlinkInVain(b, sid);
    assert events[1..][1..] == [Unlink(sid), Reject(logout)];
    assert Runs(a, events[1..]) && After(a, events[1..]) == After(b, [Unlink(sid), Reject(logout)]);
  }

  lemma UnlinkInVain(b: State, sid: Sid)
    requires b.owner == [sid] && sid in b.sockets && b.sockets[sid] == 0 && 0 in b.live
    requires LoggingOut(sid, 0) !in b.tasks
    ensures Runs(b, [Unlink(sid), Reject(LoggingOut(sid, 0))])
    ensures var d := After(b, [Unlink(sid), Reject(LoggingOut(sid, 0))]); 0 in d.live && !Held(d, 0)
  {
    var c := Next(b, Unlink(sid));
    assert sid !in c.sockets && 0 in c.live && c.owner == [sid] && c.tasks[LoggingOut(sid, 0)] == 1;
    RunTwo(b, Unlink(sid), Reject(LoggingOut(sid, 0)));
  }

  // ----- What may come, and when -----

  /** A session can be started, stopped and unlinked at any time; a working socket can break, and
      reports its close exactly when it no longer works; any socket ever made can report the rest. */
  lemma WhatMayCome(s: State, sid: Sid, k: Sock, qr: bool, connection: Connection)
    ensures Enabled(s, Start(sid)) && Enabled(s, StopSession(sid)) && Enabled(s, Unlink(sid))
    ensures Enabled(s, Dies(k)) <==> k in s.live
    ensures k in s.live ==> k !in Next(s, Dies(k)).live && Next(s, Dies(k)) == s.(live := Next(s, Dies(k)).live)
    ensures k < |s.owner| && connection.Closed? ==> (Enabled(s, Update(k, qr, connection)) <==> k !in s.live)
    ensures k < |s.owner| && !connection.Closed? ==> Enabled(s, Update(k, qr, connection))
  {
  }

  /** So a current socket that breaks can always bring its session a reconnect: it reports the
      close, and once that is told, one timer is armed. */
  lemma BrokenSocketReconnects(s: State, k: Sock)
    requires Inv(s) && k in s.live && s.Current(k)
    ensures var sid := s.owner[k];
      var events := [Dies(k), Update(k, false, Closed(false)), Resume(Notifying(sid))];
      && Runs(s, events) && OneTimer(After(s, events), sid) && k !in After(s, events).live
      && After(s, events).log ==
           s.log + [Notified(sid, "disconnected"), Scheduled(sid, Backoff(Pending(s.log, sid) + 1))]
  {
    var sid, close := s.owner[k], Update(k, false, Closed(false));
    var b := BrokenAndTold(s, k);
    NotifiedReconnects(b, sid);
    RunThree(s, Dies(k), close, Resume(Notifying(sid)));
  }

  lemma BrokenAndTold(s: State, k: Sock) returns (b: State)
    requires Inv(s) && k in s.live && s.Current(k)
    ensures Enabled(Next(s, Dies(k)), Update(k, false, Closed(false)))
    ensures b == Next(Next(s, Dies(k)), Update(k, false, Closed(false))) && Inv(b)
    ensures b == s.(live := s.live - {k}, tasks := s.tasks + multiset{Notifying(s.owner[k])},
                    log := s.log + [Notified(s.owner[k], "disconnected")])
  {
    var a := Next(s, Dies(k));
    StepKeepsInv(s, Dies(k));
    StepKeepsInv(a, Update(k, false, Closed(false)));
    assert a.Current(k);
    b := Next(a, Update(k, false, Closed(false)));
  }

  lemma NotifiedReconnects(s: State, sid: Sid)
    requires Inv(s) && Notifying(sid) in s.tasks
    ensures Enabled(s, Resume(Notifying(sid)))
    ensures var n := Next(s, Resume(Notifying(sid)));
      && OneTimer(n, sid) && n.live == s.live && n.log == s.log + [Scheduled(sid, Backoff(s.Attempts(sid) + 1))]
  {
    ScheduleKeepsInv(s.(tasks := s.tasks - multiset{Notifying(sid)}), sid);
  }

  // ----- What the API is told -----

  /** A QR, a link, a lost connection: each is told as it is handled, and only of the socket the
      session has; a log-out once the credentials are cleared. */
  lemma WhatIsTold(s: State, k: Sock, qr: bool, connection: Connection)
    requires Enabled(s, Update(k, qr, connection))
    ensures var n, sid := Next(s, Update(k, qr, connection)), s.owner[k];
      n.log == s.log +
        if !s.Current(k) then []
        else if qr then [Notified(sid, "qr")]
        else match connection
          case Unchanged => []
          case Opened => [Note.Reset(sid), Notified(sid, "linked")]
          case Closed(true) => []
          case Closed(false) => [Notified(sid, "disconnected")]
    ensures forall sid | Clearing(sid) in s.tasks ::
      Next(s, Resume(Clearing(sid))).log == s.log + [Notified(sid, "logged_out")]
  {
  }

  /** What a current socket's update leaves suspended: a QR to be shown, a clean-up after a log-out,
      a reconnect after any other close. */
  lemma WhatIsSuspended(s: State, k: Sock, qr: bool, connection: Connection)
    requires Enabled(s, Update(k, qr, connection)) && s.Current(k)
    ensures var n, sid := Next(s, Update(k, qr, connection)), s.owner[k];
      n.tasks == s.tasks +
        if qr then multiset{ShowingQr(sid, connection, false)}
        else match connection
          case Closed(true) => multiset{Clearing(sid)}
          case Closed(false) => multiset{Notifying(sid)}
          case _ => multiset{}
  {
  }

  // ----- A reconnect that fails is tried again -----

  /** The one timer of the session is armed, and its handle stored. */
  predicate OneTimer(s: State, sid: Sid) {
    sid in s.timers && s.timers[sid] in s.armed && forall h | h in s.armed :: s.armed[h] == sid <==> h == s.timers[sid]
  }

  /** When what a timer's start() awaits throws: somebody is told, and the retry waits for that. */
  lemma FailedTimerStart(s: State, sid: Sid)
    requires Starting(sid, true) in s.tasks
    ensures Enabled(s, Reject(Starting(sid, true)))
    ensures var n := Next(s, Reject(Starting(sid, true)));
      && Retrying(sid) in n.tasks && n.log == s.log + [Notified(sid, "disconnected")]
      && n.armed == s.armed && n.sockets == s.sockets
  {
  }

  /** And then one timer is armed, whatever has happened meanwhile. */
  lemma RetryArms(s: State, sid: Sid)
    requires Inv(s) && Retrying(sid) in s.tasks
    ensures Enabled(s, Resume(Retrying(sid)))
    ensures var n := Next(s, Resume(Retrying(sid))); OneTimer(n, sid) && n.sockets == s.sockets
  {
    ScheduleKeepsInv(s.(tasks := s.tasks - multiset{Retrying(sid)}), sid);
  }

  lemma FailedStartRetries(s: State, sid: Sid)
    requires Inv(s) && Starting(sid, true) in s.tasks && s.Attempts(sid) == 0 && sid !in s.sockets
    ensures var failed := Next(s, Reject(Starting(sid, true)));
      var after := Next(failed, Resume(Retrying(sid)));
      && Enabled(s, Reject(Starting(sid, true))) && Enabled(failed, Resume(Retrying(sid)))
      && OneTimer(after, sid) && sid !in after.sockets
      && after.log == s.log + [Notified(sid, "disconnected"), Scheduled(sid, RECONNECT_BASE_MS)]
  {
    var failed := Next(s, Reject(Starting(sid, true)));
    StepKeepsInv(s, Reject(Starting(sid, true)));
    FailedTimerStart(s, sid);
    RetryArms(failed, sid);
    assert failed.Attempts(sid) == 0;
  }

  /** A timer fires, its start() fails: the session has a timer again, due in 2 s. */
  lemma FailedReconnectRetries(s: State, h: Timer)
    requires Inv(s) && h in s.armed
    ensures var sid := s.armed[h];
      var events := [Fire(h), Reject(Starting(sid, true)), Resume(Retrying(sid))];
      && Runs(s, events) && OneTimer(After(s, events), sid) && sid !in After(s, events).sockets
      && After(s, events).log ==
           s.log + [Note.Reset(sid), Notified(sid, "disconnected"), Scheduled(sid, RECONNECT_BASE_MS)]
  {
    var sid := s.armed[h];
    var a := Next(s, Fire(h));
    StepKeepsInv(s, Fire(h));
    FailedStartRetries(a, sid);
    RunThree(s, Fire(h), Reject(Starting(sid, true)), Resume(Retrying(sid)));
  }

  /** A QR that cannot be shown is reported, and then the connection is handled as if it had been. */
  lemma FailedQrGoesOn(s: State, sid: Sid, connection: Connection)
    requires ShowingQr(sid, connection, false) in s.tasks
    ensures var n := Next(s, Reject(ShowingQr(sid, connection, false)));
      && n.log == s.log + [Notified(sid, "failed")]
      && Enabled(n, Resume(ShowingQr(sid, connection, true)))
      && Next(n, Resume(ShowingQr(sid, connection, true))) ==
           React(s.(tasks := s.tasks - multiset{ShowingQr(sid, connection, false)}, log := n.log), sid, connection)
  {
    var n := Next(s, Reject(ShowingQr(sid, connection, false)));
    assert n.tasks - multiset{ShowingQr(sid, connection, true)} ==
      s.tasks - multiset{ShowingQr(sid, connection, false)};
  }

  /** Any other failed await only ends its call: no timer, no retry. */
  lemma OtherFailuresEndTheCall(s: State, t: Task)
    requires t in s.tasks && !(t.Starting? && t.byTimer) && !(t.ShowingQr? && !t.failed)
    ensures Next(s, Reject(t)) == s.(tasks := s.tasks - multiset{t})
  {
  }

  /** shutdown() leaves armed exactly the timers of sessions without a socket. */
  lemma ShutdownMissesTimers(s: State, sids: seq<Sid>)
    requires Inv(s) && Enabled(s, Shutdown(sids))
    ensures var n := Next(s, Shutdown(sids));
      && n.sockets == map[]
      && n.armed.Keys == set sid | sid in s.timers && sid !in s.sockets :: s.timers[sid]
  {
    var n := Next(s, Shutdown(sids));
    StopAllEffect(s, sids);
    StopAllKeepsInv(s, sids);
    assert n.timers == s.timers - s.sockets.Keys;
    forall h | h in n.armed
      ensures h in (set sid | sid in s.timers && sid !in s.sockets :: s.timers[sid])
    {
      assert n.armed[h] in n.timers && s.timers[n.armed[h]] == h;
    }
    forall sid | sid in s.timers && sid !in s.sockets ensures s.timers[sid] in n.armed {
      assert sid in n.timers;
    }
  }

  // ----- Backoff -----

  /** 2, 4, 8, 16, 32 and then 60 seconds. */
  lemma BackoffValues()
    ensures [Backoff(1), Backoff(2), Backoff(3), Backoff(4), Backoff(5), Backoff(6), Backoff(7)] ==
            [2000, 4000, 8000, 16000, 32000, 60000, 60000]
  {
    assert Pow2(0) == 1 && Pow2(1) == 2 && Pow2(2) == 4 && Pow2(3) == 8 && Pow2(4) == 16 && Pow2(5) == 32;
    assert Pow2(6) == 64;
  }

  lemma {:induction false} BackoffShape(n: nat)
    requires n >= 1
    ensures RECONNECT_BASE_MS <= Backoff(n) <= Backoff(n + 1) <= RECONNECT_MAX_MS
    ensures Backoff(n) == RECONNECT_BASE_MS <==> n == 1
    ensures n >= 6 ==> Backoff(n) == RECONNECT_MAX_MS
  {
    if n > 1 {
      BackoffShape(n - 1);
    }
    if n == 6 {
      assert Pow2(5) == 2 * Pow2(4) && Pow2(4) == 2 * Pow2(3) && Pow2(3) == 8;
    }
  }

  lemma {:induction false} BackoffMonotone(m: nat, n: nat)
    requires 1 <= m <= n
    ensures Backoff(m) <= Backoff(n)
  {
    if m < n {
      BackoffMonotone(m, n - 1);
      BackoffShape(n - 1);
    }
  }

  /** In every run the counter is the number of reconnects scheduled since the last stop or
      open, and each delay is the backoff of that number. */
  lemma CounterAndDelays(events: seq<Event>)
    requires Runs(Boot, events)
    ensures var s := After(Boot, events);
      && (forall sid :: s.Attempts(sid) == Pending(s.log, sid))
      && (forall i | 0 <= i < |s.log| && s.log[i].Scheduled? ::
            s.log[i].delay == Backoff(Pending(s.log[..i], s.log[i].sid) + 1))
  {
    RunKeepsInv(Boot, events);
  }

  predicate NoResetBetween(log: seq<Note>, i: nat, j: nat, sid: Sid)
    requires i <= j <= |log|
  {
    forall m | i <= m < j :: log[m] != Reset(sid)
  }

  lemma {:induction false} PendingGrows(log: seq<Note>, i: nat, j: nat, sid: Sid)
    requires i <= j <= |log| && NoResetBetween(log, i, j, sid)
    ensures Pending(log[..i], sid) <= Pending(log[..j], sid)
  {
    if i < j {
      PendingGrows(log, i, j - 1, sid);
      assert log[..j][..j - 1] == log[..j - 1];
    }
  }

  /** A positive count goes back to a reconnect with no reset after it. */
  lemma {:induction false} PendingHasCause(log: seq<Note>, j: nat, sid: Sid) returns (i: nat)
    requires j <= |log| && Pending(log[..j], sid) > 0
    ensures i < j && log[i].Scheduled? && log[i].sid == sid && NoResetBetween(log, i, j, sid)
  {
    assert log[..j][..j - 1] == log[..j - 1];
    if log[j - 1].Scheduled? && log[j - 1].sid == sid {
      i := j - 1;
    } else {
      i := PendingHasCause(log, j - 1, sid);
    }
  }

  /** Between two resets delays never shrink, and the second is already above 2 s. */
  lemma DelaysGrowBetweenResets(log: seq<Note>, i: nat, j: nat)
    requires DelaysRight(log) && i < j < |log|
    requires log[i].Scheduled? && log[j].Scheduled? && log[i].sid == log[j].sid
    requires NoResetBetween(log, i, j, log[i].sid)
    ensures RECONNECT_BASE_MS <= log[i].delay <= log[j].delay <= RECONNECT_MAX_MS
    ensures log[j].delay > RECONNECT_BASE_MS
  {
    var sid := log[i].sid;
    assert log[..i + 1][..i] == log[..i];
    PendingGrows(log, i + 1, j, sid);
    var m, n := Pending(log[..i], sid) + 1, Pending(log[..j], sid) + 1;
    BackoffMonotone(m, n);
    BackoffShape(m);
    BackoffShape(n);
  }

  /** In the log, a session's delays are all 2 s exactly when a stop or an open lies between
      any two of its reconnects. */
  lemma WhenBackoffStaysAtBase(log: seq<Note>, sid: Sid)
    requires DelaysRight(log)
    ensures (forall j | 0 <= j < |log| && log[j].Scheduled? && log[j].sid == sid ::
               log[j].delay == RECONNECT_BASE_MS)
       <==> (forall i, j | 0 <= i < j < |log| && log[i].Scheduled? && log[j].Scheduled? &&
               log[i].sid == sid == log[j].sid :: !NoResetBetween(log, i, j, sid))
  {
    if forall j | 0 <= j < |log| && log[j].Scheduled? && log[j].sid == sid :: log[j].delay == RECONNECT_BASE_MS {
      forall i, j | 0 <= i < j < |log| && log[i].Scheduled? && log[j].Scheduled? && log[i].sid == sid == log[j].sid
        ensures !NoResetBetween(log, i, j, sid)
      {
        if NoResetBetween(log, i, j, sid) {
          DelaysGrowBetweenResets(log, i, j);
        }
      }
    } else {
      var j :| 0 <= j < |log| && log[j].Scheduled? && log[j].sid == sid && log[j].delay != RECONNECT_BASE_MS;
      BackoffShape(Pending(log[..j], sid) + 1);
      var i := PendingHasCause(log, j, sid);
    }
  }

  // ----- Backoff over runs -----

  /** The step schedules a reconnect of the session. */
  predicate Reconnects(e: Event, sid: Sid) {
    e == Resume(Retrying(sid)) || e == Resume(Notifying(sid))
  }

  /** The step begins a start of the session: on request, or as its timer fires. */
  predicate Starts(s: State, e: Event, sid: Sid)
    requires Enabled(s, e)
  {
    e == Start(sid) || (e.Fire? && s.armed[e.timer] == sid)
  }

  /** The step clears the session's counter: a start, a stop, or an open of its socket. */
  predicate Clears(s: State, e: Event, sid: Sid)
    requires Enabled(s, e)
  {
    || Starts(s, e, sid)
    || e == StopSession(sid) || e == Unlink(sid)
    || (e.Shutdown? && sid in e.sids)
    || (e.Update? && s.Current(e.sock) && s.owner[e.sock] == sid && !e.qr && e.connection.Opened?)
    || e == Resume(ShowingQr(sid, Opened, false)) || e == Resume(ShowingQr(sid, Opened, true))
  }

  predicate AllAtBase(log: seq<Note>, sid: Sid) {
    forall j | 0 <= j < |log| && log[j].Scheduled? && log[j].sid == sid :: log[j].delay == RECONNECT_BASE_MS
  }

  /** From s to n the session's counter is cleared, or counts one more reconnect, or stays; and
      only a reconnect of a counter not clear is delayed by more than 2 s. */
  predicate CountsAs(s: State, n: State, sid: Sid, clears: bool, reconnects: bool) {
    && n.Attempts(sid) == (if clears then 0 else if reconnects then s.Attempts(sid) + 1 else s.Attempts(sid))
    && (AllAtBase(n.log, sid) <==> AllAtBase(s.log, sid) && (reconnects ==> s.Attempts(sid) == 0))
  }

  lemma OtherNotesKeepBase(log: seq<Note>, notes: seq<Note>, sid: Sid)
    requires forall j | 0 <= j < |notes| :: !(notes[j].Scheduled? && notes[j].sid == sid)
    ensures AllAtBase(log + notes, sid) <==> AllAtBase(log, sid)
  {
    assert forall j | 0 <= j < |log| :: (log + notes)[j] == log[j];
  }

  lemma StopCounts(s: State, x: Sid, sid: Sid)
    ensures CountsAs(s, Stop(s, x), sid, x == sid, false) && CountsAs(s, Unlinked(s, x), sid, x == sid, false)
  {
    OtherNotesKeepBase(s.log, [Note.Reset(x)], sid);
  }

  lemma StopAllCounts(s: State, sids: seq<Sid>, sid: Sid)
    ensures CountsAs(s, StopAll(s, sids), sid, sid in sids, false)
  {
    if sids != [] {
      var init, last := sids[..|sids| - 1], sids[|sids| - 1];
      StopAllCounts(s, init, sid);
      assert sids == init + [last];
      StopCounts(StopAll(s, init), last, sid);
    }
  }

  lemma FireCounts(s: State, timer: Timer, sid: Sid)
    requires timer in s.armed
    ensures CountsAs(s, Next(s, Fire(timer)), sid, s.armed[timer] == sid, false)
  {
    StopCounts(s.(armed := s.armed - {timer}), s.armed[timer], sid);
  }

  lemma ScheduleCounts(s: State, x: Sid, sid: Sid)
    ensures CountsAs(s, ScheduleReconnect(s, x), sid, false, x == sid)
  {
    var note := Scheduled(x, Backoff(s.Attempts(x) + 1));
    BackoffShape(s.Attempts(x) + 1);
    assert forall j | 0 <= j < |s.log| :: (s.log + [note])[j] == s.log[j];
    assert (s.log + [note])[|s.log|] == note;
  }

  lemma ReactCounts(s: State, x: Sid, connection: Connection, sid: Sid)
    ensures CountsAs(s, React(s, x, connection), sid, x == sid && connection.Opened?, false)
  {
    match connection
    case Unchanged =>
    case Opened => OtherNotesKeepBase(s.log, [Note.Reset(x), Notified(x, "linked")], sid);
    case Closed(_) => OtherNotesKeepBase(s.log, [Notified(x, "disconnected")], sid);
  }

  lemma UpdateCounts(s: State, k: Sock, qr: bool, connection: Connection, sid: Sid)
    requires k < |s.owner|
    ensures CountsAs(s, OnUpdate(s, k, qr, connection), sid,
              s.Current(k) && s.owner[k] == sid && !qr && connection.Opened?, false)
  {
    OtherNotesKeepBase(s.log, [Notified(s.owner[k], "qr")], sid);
    ReactCounts(s, s.owner[k], connection, sid);
  }

  lemma ResumeCounts(s: State, t: Task, sid: Sid)
    requires t in s.tasks
    ensures CountsAs(s, Resumed(s, t), sid, t.ShowingQr? && t.sid == sid && t.connection == Opened,
              t == Retrying(sid) || t == Notifying(sid))
  {
    var c := s.(tasks := s.tasks - multiset{t});
    match t
    case Starting(_, _) =>
    case Retrying(x) => ScheduleCounts(c, x, sid);
    case Notifying(x) => ScheduleCounts(c, x, sid);
    case ShowingQr(x, connection, _) => ReactCounts(c, x, connection, sid);
    case Clearing(x) => OtherNotesKeepBase(s.log, [Notified(x, "logged_out")], sid);
    case LoggingOut(_, _) =>
  }

  lemma RejectCounts(s: State, t: Task, sid: Sid)
    ensures CountsAs(s, Rejected(s, t), sid, false, false)
  {
    OtherNotesKeepBase(s.log, [Notified(t.sid, "disconnected")], sid);
    OtherNotesKeepBase(s.log, [Notified(t.sid, "failed")], sid);
  }

  lemma StoppingStepCounts(s: State, e: Event, sid: Sid)
    requires Enabled(s, e) && (e.Start? || e.StopSession? || e.Unlink? || e.Shutdown? || e.Fire?)
    ensures CountsAs(s, Next(s, e), sid, Clears(s, e, sid), Reconnects(e, sid))
  {
    match e
    case Start(x) => StopCounts(s, x, sid);
    case StopSession(x) => StopCounts(s, x, sid);
    case Unlink(x) => StopCounts(s, x, sid);
    case Shutdown(sids) => StopAllCounts(s, sids, sid);
    case Fire(timer) => FireCounts(s, timer, sid);
  }

  lemma SocketStepCounts(s: State, e: Event, sid: Sid)
    requires Enabled(s, e) && (e.Dies? || e.Update?)
    ensures CountsAs(s, Next(s, e), sid, Clears(s, e, sid), Reconnects(e, sid))
  {
    match e
    case Dies(_) =>
    case Update(k, qr, connection) => UpdateCounts(s, k, qr, connection, sid);
  }

  lemma TaskStepCounts(s: State, e: Event, sid: Sid)
    requires Enabled(s, e) && (e.Resume? || e.Reject?)
    ensures CountsAs(s, Next(s, e), sid, Clears(s, e, sid), Reconnects(e, sid))
  {
    match e
    case Resume(t) => ResumeCounts(s, t, sid);
    case Reject(t) => RejectCounts(s, t, sid);
  }

  lemma StepCounts(s: State, e: Event, sid: Sid)
    requires Enabled(s, e)
    ensures CountsAs(s, Next(s, e), sid, Clears(s, e, sid), Reconnects(e, sid))
  {
    if e.Dies? || e.Update? {
      SocketStepCounts(s, e, sid);
    } else if e.Resume? || e.Reject? {
      TaskStepCounts(s, e, sid);
    } else {
      StoppingStepCounts(s, e, sid);
    }
  }

  /** Between any two reconnects of the session its counter is cleared; `clear` says whether
      it is clear to begin with. */
  ghost predicate ClearedBetween(s: State, events: seq<Event>, sid: Sid, clear: bool)
    requires Runs(s, events)
    decreases |events|
  {
    events == [] ||
    (&& (Reconnects(events[0], sid) ==> clear)
     && ClearedBetween(Next(s, events[0]), events[1..], sid,
          Clears(s, events[0], sid) || (clear && !Reconnects(events[0], sid))))
  }

  lemma {:induction false} BaseOverRun(s: State, events: seq<Event>, sid: Sid)
    requires Runs(s, events)
    ensures AllAtBase(After(s, events).log, sid) <==>
            AllAtBase(s.log, sid) && ClearedBetween(s, events, sid, s.Attempts(sid) == 0)
    decreases |events|
  {
    if events != [] {
      StepCounts(s, events[0], sid);
      BaseOverRun(Next(s, events[0]), events[1..], sid);
    }
  }

  /** In every run all delays of a session are 2 s exactly when a start, a stop or an open of
      it comes between any two of its reconnects. */
  lemma WhenDelaysStayAtBase(events: seq<Event>, sid: Sid)
    requires Runs(Boot, events)
    ensures AllAtBase(After(Boot, events).log, sid) <==> ClearedBetween(Boot, events, sid, true)
  {
    BaseOverRun(Boot, events, sid);
  }

  /** At most one reconnect between consecutive starts of the session. */
  ghost predicate StartedBetween(s: State, events: seq<Event>, sid: Sid, started: bool)
    requires Runs(s, events)
    decreases |events|
  {
    events == [] ||
    (&& (Reconnects(events[0], sid) ==> started)
     && StartedBetween(Next(s, events[0]), events[1..], sid,
          Starts(s, events[0], sid) || (started && !Reconnects(events[0], sid))))
  }

  lemma {:induction false} StartsClear(s: State, events: seq<Event>, sid: Sid, started: bool, clear: bool)
    requires Runs(s, events) && StartedBetween(s, events, sid, started) && (started ==> clear)
    ensures ClearedBetween(s, events, sid, clear)
    decreases |events|
  {
    if events != [] {
      StartsClear(Next(s, events[0]), events[1..], sid,
        Starts(s, events[0], sid) || (started && !Reconnects(events[0], sid)),
        Clears(s, events[0], sid) || (clear && !Reconnects(events[0], sid)));
    }
  }

  /** One reconnect per start: every delay is 2 s, so the backoff never grows. */
  lemma OneReconnectPerStart(events: seq<Event>, sid: Sid)
    requires Runs(Boot, events) && StartedBetween(Boot, events, sid, true)
    ensures AllAtBase(After(Boot, events).log, sid)
  {
    StartsClear(Boot, events, sid, true, true);
    WhenDelaysStayAtBase(events, sid);
  }
}
