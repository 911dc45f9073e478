/** The process-wide HTTP client pool (src/infrastructure/http_client.py): any number of
    coroutines run get_client and close_clients, interleaved at every await. One event
    below is what runs between two awaits. */
module HttpPool {
  import opened Basics

  type Name = string
  type Client = nat // the order in which the clients were built
  type Task = nat

  /** Where a coroutine is suspended. */
  datatype Phase =
    | Idle
    | GetWaits(name: Name) // get_client, at `async with _lock`
    | CloseWaits // close_clients, at `async with _lock`
    | Closing(todo: seq<Client>) // close_clients, holding the lock; todo[0].aclose() is awaited

  datatype State = State(
    clients: map<Name, Client>, // _clients
    lock: Option<Task>, // holder of _lock
    phases: map<Task, Phase>,
    names: seq<Name>, // the name each client was built for
    closed: set<Client>, // client.is_closed
    failed: set<Client>) // client.aclose() raised
  {
    function PhaseOf(t: Task): Phase { if t in phases then phases[t] else Idle }

    predicate Open(c: Client) { c < |names| && c !in closed }

    /** `client is not None and not client.is_closed` for `_clients.get(name)`. */
    predicate Hit(name: Name) { name in clients && clients[name] !in closed }
  }

  datatype Event =
    | Get(task: Task, name: Name) // call: return the client found, or go for the lock
    | GetLocked(task: Task) // get_client gets the lock: check again, build, release
    | Close(task: Task)
    | CloseLocked(task: Task, snapshot: seq<Client>) // gets the lock and lists the clients
    | Closes(task: Task) // the awaited client turns closed
    | CloseNext(task: Task, raised: bool) // the awaited aclose() returns or raises
    | CloseDone(task: Task) // clear the map, release the lock
    | Cancel(task: Task) // the coroutine is cancelled at its await
    | External(client: Client) // somebody holding a client closes it

  const Start := State(map[], None, map[], [], {}, {})

  predicate IsSnapshot(clients: map<Name, Client>, snapshot: seq<Client>) {
    (forall c | c in snapshot :: c in clients.Values) && (forall c | c in clients.Values :: c in snapshot)
  }

  predicate Enabled(s: State, e: Event) {
    match e
    case Get(t, _) => s.PhaseOf(t) == Idle
    case GetLocked(t) => s.PhaseOf(t).GetWaits? && s.lock == None
    case Close(t) => s.PhaseOf(t) == Idle
    case CloseLocked(t, snapshot) =>
      s.PhaseOf(t) == CloseWaits && s.lock == None && IsSnapshot(s.clients, snapshot)
    case Closes(t) => s.PhaseOf(t).Closing? && s.PhaseOf(t).todo != []
    case CloseNext(t, raised) =>
      && s.PhaseOf(t).Closing? && s.PhaseOf(t).todo != []
      && (raised || s.PhaseOf(t).todo[0] in s.closed)
    case CloseDone(t) => s.PhaseOf(t) == Closing([])
    case Cancel(t) => s.PhaseOf(t) != Idle
    case External(c) => c < |s.names|
  }

  function Build(s: State, name: Name): State {
    s.(clients := s.clients[name := |s.names|], names := s.names + [name])
  }

  function Next(s: State, e: Event): State
    requires Enabled(s, e)
  {
    match e
    case Get(t, name) =>
      if s.Hit(name) then s else s.(phases := s.phases[t := GetWaits(name)])
    case GetLocked(t) =>
      var name := s.PhaseOf(t).name;
      (if s.Hit(name) then s else Build(s, name)).(phases := s.phases[t := Idle])
    case Close(t) => s.(phases := s.phases[t := CloseWaits])
    case CloseLocked(t, snapshot) =>
      s.(lock := Some(t), phases := s.phases[t := Closing(snapshot)])
    case Closes(t) => s.(closed := s.closed + {s.PhaseOf(t).todo[0]})
    case CloseNext(t, raised) =>
      var todo := s.PhaseOf(t).todo;
      s.(phases := s.phases[t := Closing(todo[1..])],
         failed := if raised then s.failed + {todo[0]} else s.failed)
    case CloseDone(t) => s.(clients := map[], lock := None, phases := s.phases[t := Idle])
    case Cancel(t) =>
      s.(lock := if s.lock == Some(t) then None else s.lock, phases := s.phases[t := Idle])
    case External(c) => s.(closed := s.closed + {c})
  }

  /** The name a get_client event serves, and the client it returns, if it returns. */
  function Asked(s: State, e: Event): Option<Name>
    requires Enabled(s, e)
  {
    if e.Get? then Some(e.name) else if e.GetLocked? then Some(s.PhaseOf(e.task).name) else None
  }

  function Returned(s: State, e: Event): Option<Client>
    requires Enabled(s, e)
  {
    match Asked(s, e)
    case None => None
    case Some(name) =>
      if s.Hit(name) then Some(s.clients[name])
      else if e.GetLocked? then Some(|s.names|)
      else None
  }

  // ----- Runs -----

  predicate Runs(s: State, events: seq<Event>)
    decreases |events|
  {
    events == [] || (Enabled(s, events[0]) && Runs(Next(s, events[0]), events[1..]))
  }

  function After(s: State, events: seq<Event>): State
    requires Runs(s, events)
    decreases |events|
  {
    if events == [] then s else After(Next(s, events[0]), events[1..])
  }

  // ----- The invariant -----

  ghost predicate Owned(s: State) {
    && (forall name | name in s.clients :: s.clients[name] < |s.names| && s.names[s.clients[name]] == name)
    && (forall c | c in s.closed :: c < |s.names|)
    && (forall t: Task, c: Client | s.PhaseOf(t).Closing? && c in s.PhaseOf(t).todo :: c < |s.names|)
  }

  /** No open client is lost: it is the one its name maps to, unless its aclose() raised. */
  ghost predicate NoneLost(s: State) {
    forall c: Client | s.Open(c) && c !in s.failed ::
      s.names[c] in s.clients && s.clients[s.names[c]] == c
  }

  /** Only the lock holder closes; what it has passed is closed or failed to close. */
  ghost predicate LockGuards(s: State) {
    && (forall t: Task :: s.PhaseOf(t).Closing? <==> s.lock == Some(t))
    && (s.lock.Some? ==> forall name | name in s.clients ::
          var c := s.clients[name];
          c in s.PhaseOf(s.lock.value).todo || c in s.closed || c in s.failed)
  }

  ghost predicate Inv(s: State) { Owned(s) && NoneLost(s) && LockGuards(s) }

  lemma TodosAreOwned(s: State, e: Event)
    requires Owned(s) && Enabled(s, e)
    ensures var n := Next(s, e);
      forall u: Task, c: Client | n.PhaseOf(u).Closing? && c in n.PhaseOf(u).todo :: c < |n.names|
  {
    var n := Next(s, e);
    forall u: Task, c: Client | n.PhaseOf(u).Closing? && c in n.PhaseOf(u).todo
      ensures c < |n.names|
    {
      if !(s.PhaseOf(u).Closing? && c in s.PhaseOf(u).todo) {
        assert e.CloseLocked? && c in s.clients.Values;
      }
    }
  }

  lemma StepKeepsInv(s: State, e: Event)
    requires Inv(s) && Enabled(s, e)
    ensures Inv(Next(s, e))
  {
    TodosAreOwned(s, e);
    match e
    case GetLocked(_) => GetLockedKeepsInv(s, e);
    case Closes(t) => assert s.PhaseOf(t).todo[0] in s.PhaseOf(t).todo;
    case CloseNext(_, _) => CloseNextKeepsInv(s, e);
    case CloseLocked(_, _) => CloseLockedKeepsInv(s, e);
    case _ =>
  }

  lemma GetLockedKeepsInv(s: State, e: Event)
    requires Inv(s) && Enabled(s, e) && e.GetLocked?
    ensures Inv(Next(s, e))
  {
    TodosAreOwned(s, e);
  }

  lemma CloseNextKeepsInv(s: State, e: Event)
    requires Inv(s) && Enabled(s, e) && e.CloseNext?
    ensures Inv(Next(s, e))
  {
    TodosAreOwned(s, e);
    var todo := s.PhaseOf(e.task).todo;
    assert forall c :: c in todo <==> c == todo[0] || c in todo[1..];
  }

  lemma CloseLockedKeepsInv(s: State, e: Event)
    requires Inv(s) && Enabled(s, e) && e.CloseLocked?
    ensures Inv(Next(s, e))
  {
    TodosAreOwned(s, e);
    forall name | name in s.clients ensures s.clients[name] in e.snapshot {
      assert s.clients[name] in s.clients.Values;
    }
  }

  lemma {:induction false} RunKeepsInv(s: State, events: seq<Event>)
    decreases |events|
    requires Inv(s) && Runs(s, events)
    ensures Inv(After(s, events))
  {
    if events != [] {
      StepKeepsInv(s, events[0]);
      RunKeepsInv(Next(s, events[0]), events[1..]);
    }
  }

  /** In every state any coroutines can reach: at most one open client per name, and each
      still in the map, leaving aside clients whose aclose() raised. */
  lemma AtMostOneOpenClientPerName(events: seq<Event>)
    requires Runs(Start, events)
    ensures var s := After(Start, events);
      && (forall c: Client | s.Open(c) && c !in s.failed ::
            s.names[c] in s.clients && s.clients[s.names[c]] == c)
      && (forall c: Client, d: Client | s.Open(c) && s.Open(d) && c !in s.failed && d !in s.failed ::
            s.names[c] == s.names[d] ==> c == d)
  {
    RunKeepsInv(Start, events);
  }

  lemma {:induction false} RunOnlyGrows(s: State, events: seq<Event>)
    decreases |events|
    requires Runs(s, events)
    ensures s.names <= After(s, events).names
    ensures s.closed <= After(s, events).closed
  {
    if events != [] {
      RunOnlyGrows(Next(s, events[0]), events[1..]);
    }
  }

  /** Two get_client calls for one name, anything in between: both return an open client,
      and the same one exactly when the first one is still open and cached; which for a client
      whose aclose() did not raise is to be still open. */
  lemma SameClientWhileOpen(s: State, first: Event, between: seq<Event>, second: Event)
    requires Inv(s) && Enabled(s, first) && Runs(Next(s, first), between)
    requires Enabled(After(Next(s, first), between), second)
    requires var s' := After(Next(s, first), between);
      Asked(s, first).Some? && Asked(s, first) == Asked(s', second) &&
      Returned(s, first).Some? && Returned(s', second).Some?
    ensures var s' := After(Next(s, first), between);
      var c, c' := Returned(s, first).value, Returned(s', second).value;
      && Next(s, first).Open(c) && Next(s', second).Open(c')
      && (c' == c <==> s'.Open(c) && s'.names[c] in s'.clients && s'.clients[s'.names[c]] == c)
      && (c !in s'.failed ==> (c' == c <==> s'.Open(c)))
  {
    StepKeepsInv(s, first);
    RunKeepsInv(Next(s, first), between);
    RunOnlyGrows(Next(s, first), between);
    var s' := After(Next(s, first), between);
    var c := Returned(s, first).value;
    assert s'.names[c] == Asked(s, first).value;
  }

  predicate ClosesNothing(e: Event) { e.Get? || e.GetLocked? || e.Close? }

  lemma {:induction false} StaysCached(s: State, events: seq<Event>, name: Name)
    decreases |events|
    requires Inv(s) && Runs(s, events) && s.Hit(name)
    requires forall e | e in events :: ClosesNothing(e)
    ensures After(s, events).Hit(name) && After(s, events).clients[name] == s.clients[name]
  {
    if events != [] {
      assert events[0] in events;
      StepKeepsInv(s, events[0]);
      StaysCached(Next(s, events[0]), events[1..], name);
    }
  }

  /** With no closing step in between, both calls return the same client outright, whether
      or not an earlier aclose() of it raised. */
  lemma SameClientWithoutClose(s: State, first: Event, between: seq<Event>, second: Event)
    requires Inv(s) && Enabled(s, first) && Runs(Next(s, first), between)
    requires forall e | e in between :: ClosesNothing(e)
    requires var s' := After(Next(s, first), between);
      Enabled(s', second) && Asked(s, first).Some? && Asked(s, first) == Asked(s', second) &&
      Returned(s, first).Some?
    ensures Returned(After(Next(s, first), between), second) == Returned(s, first)
  {
    StepKeepsInv(s, first);
    StaysCached(Next(s, first), between, Asked(s, first).value);
  }

  /** When close_clients ends, every client ever built is closed or failed to close. */
  lemma CloseLeavesNothingOpen(events: seq<Event>, t: Task)
    requires Runs(Start, events) && Enabled(After(Start, events), CloseDone(t))
    ensures var s := Next(After(Start, events), CloseDone(t));
      forall c: Client | s.Open(c) :: c in s.failed
  {
    RunKeepsInv(Start, events);
  }

  lemma {:induction false} WaiterWaits(s: State, events: seq<Event>, t: Task)
    requires Runs(s, events) && s.PhaseOf(t).GetWaits?
    requires forall e | e in events :: e != Cancel(t) && e != GetLocked(t)
    ensures After(s, events).PhaseOf(t) == s.PhaseOf(t)
    decreases |events|
  {
    if events != [] {
      assert events[0] in events && forall e | e in events[1..] :: e in events;
      WaiterWaits(Next(s, events[0]), events[1..], t);
    }
  }

  /** A call, whatever runs while it waits for the lock: it returns an open client built for the
      name it asked for, and caches it under that name. */
  lemma CallServesItsName(s: State, t: Task, name: Name, events: seq<Event>)
    requires Inv(s) && Enabled(s, Get(t, name)) && Returned(s, Get(t, name)).None?
    requires Runs(Next(s, Get(t, name)), events)
    requires forall e | e in events :: e != Cancel(t) && e != GetLocked(t)
    requires After(Next(s, Get(t, name)), events).lock == None
    ensures var waiting := After(Next(s, Get(t, name)), events);
      && Enabled(waiting, GetLocked(t)) && Returned(waiting, GetLocked(t)).Some?
      && var c, n := Returned(waiting, GetLocked(t)).value, Next(waiting, GetLocked(t));
         && n.Open(c) && n.names[c] == name && name in n.clients && n.clients[name] == c && n.PhaseOf(t) == Idle
         && forall other | other != name :: other in n.clients <==> other in waiting.clients
  {
    var asked := Next(s, Get(t, name));
    StepKeepsInv(s, Get(t, name));
    RunKeepsInv(asked, events);
    WaiterWaits(asked, events, t);
    assert asked.PhaseOf(t) == GetWaits(name);
    StepKeepsInv(After(asked, events), GetLocked(t));
  }

  // ----- Every call can come to its end -----

  lemma {:induction false} RunsOn(s: State, first: seq<Event>, second: seq<Event>)
    requires Runs(s, first) && Runs(After(s, first), second)
    ensures Runs(s, first + second) && After(s, first + second) == After(After(s, first), second)
    decreases |first|
  {
    if first == [] {
      assert first + second == second;
    } else {
      assert (first + second)[0] == first[0] && (first + second)[1..] == first[1..] + second;
      RunsOn(Next(s, first[0]), first[1..], second);
    }
  }

  lemma RunOne(s: State, e: Event)
    requires Enabled(s, e)
    ensures Runs(s, [e]) && After(s, [e]) == Next(s, e)
  {
    assert [e][1..] == [];
  }

  /** Whoever holds the lock can close what is left on its list, client by client, clear the map
      and release the lock, without any other coroutine. */
  lemma {:induction false} CloserCanFinish(s: State, t: Task) returns (events: seq<Event>)
    requires s.PhaseOf(t).Closing? && s.lock == Some(t)
    ensures Runs(s, events)
    ensures var n := After(s, events);
      && n.lock == None && n.clients == map[] && n.PhaseOf(t) == Idle && n.names == s.names && n.failed == s.failed
      && n.closed == s.closed + (set c | c in s.PhaseOf(t).todo)
      && forall u | u != t :: n.PhaseOf(u) == s.PhaseOf(u)
    decreases |s.PhaseOf(t).todo|
  {
    var todo := s.PhaseOf(t).todo;
    if todo == [] {
      RunOne(s, CloseDone(t));
      events := [CloseDone(t)];
      assert s.closed + (set c | c in todo) == s.closed;
    } else {
      var closed := Next(s, Closes(t));
      var passed := Next(closed, CloseNext(t, false));
      var rest := CloserCanFinish(passed, t);
      assert (set c | c in todo) == {todo[0]} + (set c | c in todo[1..]);
      events := [Closes(t), CloseNext(t, false)] + rest;
      assert events[1..] == [CloseNext(t, false)] + rest && events[1..][1..] == rest;
    }
  }

  /** The lock can be had from any state: its holder, if there is one, can finish. */
  lemma LockCanBeFree(s: State) returns (events: seq<Event>)
    requires Inv(s)
    ensures Runs(s, events) && After(s, events).lock == None
    ensures forall u | !s.PhaseOf(u).Closing? :: After(s, events).PhaseOf(u) == s.PhaseOf(u)
  {
    if s.lock == None {
      events := [];
    } else {
      events := CloserCanFinish(s, s.lock.value);
    }
  }

  /** No deadlock: in every state any coroutine that is not busy can call get_client and get an
      open client of the name. */
  lemma GetCanReturn(s: State, t: Task, name: Name) returns (events: seq<Event>)
    requires Inv(s) && s.PhaseOf(t) == Idle
    ensures Enabled(s, Get(t, name))
    ensures Returned(s, Get(t, name)).None? ==>
      && Runs(Next(s, Get(t, name)), events)
      && var n := After(Next(s, Get(t, name)), events);
         && Enabled(n, GetLocked(t)) && n.PhaseOf(t) == GetWaits(name)
         && Returned(n, GetLocked(t)).Some? && Next(n, GetLocked(t)).Open(Returned(n, GetLocked(t)).value)
  {
    events := [];
    if Returned(s, Get(t, name)).None? {
      StepKeepsInv(s, Get(t, name));
      events := LockCanBeFree(Next(s, Get(t, name)));
      var n := After(Next(s, Get(t, name)), events);
      RunKeepsInv(Next(s, Get(t, name)), events);
      StepKeepsInv(n, GetLocked(t));
    }
  }

  /** And close_clients, which then leaves no client open that was open when it got the lock. */
  lemma CloseCanFinish(s: State, t: Task, snapshot: seq<Client>) returns (waiting: seq<Event>, closing: seq<Event>)
    requires Inv(s) && s.PhaseOf(t) == Idle
    ensures Enabled(s, Close(t)) && Runs(Next(s, Close(t)), waiting)
    ensures var n := After(Next(s, Close(t)), waiting);
      && n.PhaseOf(t) == CloseWaits && n.lock == None
      && (IsSnapshot(n.clients, snapshot) ==>
            && Enabled(n, CloseLocked(t, snapshot)) && Runs(Next(n, CloseLocked(t, snapshot)), closing)
            && var end := After(Next(n, CloseLocked(t, snapshot)), closing);
               end.lock == None && end.clients == map[] && forall c | c in n.clients.Values :: !end.Open(c))
  {
    StepKeepsInv(s, Close(t));
    waiting := LockCanBeFree(Next(s, Close(t)));
    var n := After(Next(s, Close(t)), waiting);
    closing := [];
    if IsSnapshot(n.clients, snapshot) {
      closing := CloserCanFinish(Next(n, CloseLocked(t, snapshot)), t);
    }
  }

  /** An aclose() that raises is passed over, closed or not; one that returns, once it is closed. */
  lemma WhenCloseGoesOn(s: State, t: Task)
    requires s.PhaseOf(t).Closing? && s.PhaseOf(t).todo != []
    ensures Enabled(s, CloseNext(t, true)) && Enabled(s, Closes(t))
    ensures Enabled(s, CloseNext(t, false)) <==> s.PhaseOf(t).todo[0] in s.closed
    ensures Next(s, CloseNext(t, true)).failed == s.failed + {s.PhaseOf(t).todo[0]}
    ensures Next(s, Closes(t)).closed == s.closed + {s.PhaseOf(t).todo[0]}
  {
  }

  /** A cancelled coroutine is gone: it waits for nothing, and the lock it held is free. */
  lemma CancelReleases(s: State, t: Task)
    requires Inv(s)
    ensures Enabled(s, Cancel(t)) <==> s.PhaseOf(t) != Idle
    ensures s.PhaseOf(t) != Idle ==>
      && Next(s, Cancel(t)).PhaseOf(t) == Idle && Next(s, Cancel(t)).lock != Some(t)
      && (s.lock != Some(t) ==> Next(s, Cancel(t)).lock == s.lock)
      && Next(s, Cancel(t)).clients == s.clients && Next(s, Cancel(t)).closed == s.closed
  {
  }

  /** A client closed from outside is not served again: the next call builds a new one. */
  lemma ClosedOutsideIsReplaced(s: State, t: Task, name: Name, c: Client)
    requires Inv(s) && s.Hit(name) && s.clients[name] == c && s.PhaseOf(t) == GetWaits(name) && s.lock == None
    ensures Enabled(s, External(c))
    ensures var n := Next(s, External(c));
      Enabled(n, GetLocked(t)) && Returned(n, GetLocked(t)) == Some(|s.names|) && !n.Open(c)
  {
  }

  /** Why closing holds the lock: building during an aclose() without it loses a client. */
  lemma BuildingUnderCloseLosesClient()
    ensures exists s, e, name ::
      && Inv(s) && s.lock.Some? && Enabled(Build(s, name), e)
      && !NoneLost(Next(Build(s, name), e))
  {
    var s := Start.(lock := Some(0), phases := map[0 := Closing([])]);
    var b := Build(s, "default");
    assert b.names == ["default"];
    assert b.Open(0);
    assert Next(b, CloseDone(0)).Open(0);
    assert Inv(s);
    assert Enabled(b, CloseDone(0));
  }

  // ----- The module's own state, updated in place: every method keeps the invariant -----

  class Pool {
    var clients: map<Name, Client>
    var lock: Option<Task>
    var phases: map<Task, Phase>
    var names: seq<Name>
    var closed: set<Client>
    var failed: set<Client>

    function Abs(): State
      reads this
    {
      State(clients, lock, phases, names, closed, failed)
    }

    constructor ()
      ensures Abs() == Start && Inv(Abs())
    {
      clients, lock, phases, names, closed, failed := map[], None, map[], [], {}, {};
    }

    /** get_client up to its return or its await on the lock: what it returns is open and
        serves the name, and an open client of the name is always returned. */
    method GetClient(t: Task, name: Name) returns (client: Option<Client>)
      requires Inv(Abs()) && Enabled(Abs(), Get(t, name))
      modifies this
      ensures Abs() == Next(old(Abs()), Get(t, name)) && Inv(Abs())
      ensures client == Returned(old(Abs()), Get(t, name))
      ensures client.Some? ==> Abs().Open(client.value) && names[client.value] == name && Abs() == old(Abs())
      ensures client.None? ==> Abs().PhaseOf(t) == GetWaits(name)
      ensures forall c: Client | Abs().Open(c) && c !in failed && names[c] == name :: client == Some(c)
    {
      StepKeepsInv(Abs(), Get(t, name));
      if name in clients {
        var found := clients[name];
        if found !in closed {
          return Some(found);
        }
      }
      phases := phases[t := GetWaits(name)];
      client := None;
    }

    /** The body of get_client's `async with _lock`, which never awaits: it returns the one
        open client of the name, built only if there was none to find. */
    method GetClientLocked(t: Task) returns (client: Client)
      requires Inv(Abs()) && Enabled(Abs(), GetLocked(t))
      modifies this
      ensures Abs() == Next(old(Abs()), GetLocked(t)) && Inv(Abs())
      ensures Some(client) == Returned(old(Abs()), GetLocked(t))
      ensures Abs().Open(client) && names[client] == old(Abs()).PhaseOf(t).name
      ensures forall c: Client | Abs().Open(c) && c !in failed && names[c] == names[client] :: c == client
      ensures names != old(names) ==>
        forall c: Client | old(Abs()).Open(c) && c !in failed :: old(names)[c] != names[client]
    {
      StepKeepsInv(Abs(), GetLocked(t));
      var name := phases[t].name;
      phases := phases[t := Idle];
      if name in clients {
        client := clients[name];
        if client !in closed {
          return;
        }
      }
      client := |names|;
      names := names + [name];
      clients := clients[name := client];
    }

    /** close_clients on getting the lock: `list(_clients.items())` holds every open client. */
    method CloseClients(t: Task) returns (snapshot: seq<Client>)
      requires Inv(Abs()) && Abs().PhaseOf(t) == CloseWaits && lock == None
      modifies this
      ensures Enabled(old(Abs()), CloseLocked(t, snapshot))
      ensures Abs() == Next(old(Abs()), CloseLocked(t, snapshot)) && Inv(Abs())
      ensures forall c: Client | Abs().Open(c) && c !in failed :: c in snapshot
    {
      ghost var start := Abs();
      lock := Some(t);
      snapshot := [];
      var left := clients;
      while left != map[]
        invariant left.Keys <= clients.Keys && forall name | name in left :: left[name] == clients[name]
        invariant forall c :: c in clients.Values <==> c in snapshot || c in left.Values
        decreases |left|
      {
        var name :| name in left;
        var rest := left - {name};
        assert forall c :: c in left.Values <==> c == left[name] || c in rest.Values by {
          assert forall n | n in left && n != name :: n in rest && left[n] == rest[n];
        }
        assert left[name] in clients.Values;
        assert |rest.Keys| < |left.Keys| by {
          assert left.Keys == rest.Keys + {name};
        }
        snapshot := snapshot + [left[name]];
        left := rest;
      }
      phases := phases[t := Closing(snapshot)];
      StepKeepsInv(start, CloseLocked(t, snapshot));
    }

    /** After `await client.aclose()`, raised or not: one client is done with, and every client
        of the map is done with or still to come. */
    method CloseNextClient(t: Task, raised: bool)
      requires Inv(Abs()) && Enabled(Abs(), CloseNext(t, raised))
      modifies this
      ensures Abs() == Next(old(Abs()), CloseNext(t, raised)) && Inv(Abs())
      ensures old(Abs()).PhaseOf(t).todo[0] in closed + failed
      ensures forall c: Client | Abs().Open(c) && c !in failed :: c in Abs().PhaseOf(t).todo
    {
      StepKeepsInv(Abs(), CloseNext(t, raised));
      var todo := phases[t].todo;
      if raised {
        failed := failed + {todo[0]};
      }
      phases := phases[t := Closing(todo[1..])];
    }

    /** The end of close_clients, `_clients.clear()` and the lock released: no client ever
        built is left open, but those that failed to close. */
    method FinishClose(t: Task)
      requires Inv(Abs()) && Enabled(Abs(), CloseDone(t))
      modifies this
      ensures Abs() == Next(old(Abs()), CloseDone(t)) && Inv(Abs())
      ensures forall c: Client | Abs().Open(c) :: c in failed
      ensures lock == None && forall name :: !Abs().Hit(name)
    {
      StepKeepsInv(Abs(), CloseDone(t));
      clients := map[];
      lock := None;
      phases := phases[t := Idle];
    }
  }
}
