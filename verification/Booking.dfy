/** Where the availability engine meets the exclusion constraint: can a slot the engine
    offers be reserved? */
module Booking {
  import opened Basics
  import opened Reservations
  import opened ReservationRuns
  import opened Availability
  import opened Slots

  // ----- The busy-time query -----

  /** A row `busy_intervals` returns for a query window. */
  predicate Busy(r: Row, tenant: Tenant, resource: Resource, window: Interval, now: Time) {
    && r.tenant == tenant && r.resource == resource && r.Live()
    && r.span.start < window.end && r.span.end > window.start
    && (r.expires == None || r.expires.value > now)
  }

  /** Of the tenant and the resource, not released, meeting the window, and not timed out. */
  lemma WhenARowIsBusy(r: Row, tenant: Tenant, resource: Resource, window: Interval, now: Time)
    ensures Busy(r, tenant, resource, window, now) <==>
      && r.tenant == tenant && r.resource == resource && r.released == None
      && r.span.start < window.end && window.start < r.span.end
      && !(r.expires.Some? && r.expires.value <= now)
  {
  }

  function BusySpans(rows: Rows, tenant: Tenant, resource: Resource, window: Interval, now: Time): seq<Interval> {
    if rows == [] then []
    else
      var n := |rows| - 1;
      BusySpans(rows[..n], tenant, resource, window, now) +
      if Busy(rows[n], tenant, resource, window, now) then [rows[n].span] else []
  }

  function BusyIntervals(rows: Rows, tenant: Tenant, resources: set<Resource>, window: Interval,
      now: Time): map<Resource, seq<Interval>>
  {
    map id | id in resources :: BusySpans(rows, tenant, id, window, now)
  }

  lemma {:induction false} BusySpansAre(rows: Rows, tenant: Tenant, resource: Resource, window: Interval, now: Time)
    ensures forall x :: x in BusySpans(rows, tenant, resource, window, now) <==>
      exists i :: 0 <= i < |rows| && Busy(rows[i], tenant, resource, window, now) && rows[i].span == x
  {
    if rows != [] {
      var n := |rows| - 1;
      BusySpansAre(rows[..n], tenant, resource, window, now);
      forall x ensures x in BusySpans(rows, tenant, resource, window, now) <==>
        exists i :: 0 <= i < |rows| && Busy(rows[i], tenant, resource, window, now) && rows[i].span == x
      {
        assert forall i | 0 <= i < n :: rows[..n][i] == rows[i];
        if i :| 0 <= i < |rows| && Busy(rows[i], tenant, resource, window, now) && rows[i].span == x {
          assert i < n ==> rows[..n][i] == rows[i];
        }
      }
    }
  }

  /** A resource's reservations are its own tenant's, and take time. */
  predicate OwnRows(rows: Rows, tenant: Tenant, resource: Resource) {
    forall i | 0 <= i < |rows| && rows[i].resource == resource ::
      rows[i].tenant == tenant && rows[i].span.start < rows[i].span.end
  }

  predicate TableFor(rows: Rows, tenant: Tenant, resource: Resource) {
    Guarded(rows) && BookingsStay(rows) && OwnRows(rows, tenant, resource)
  }

  /** The engine sees no busy time in the block. */
  ghost predicate SeenFree(rows: Rows, tenant: Tenant, resource: Resource, window: Interval, now: Time,
      block: Interval)
  {
    forall t | block.Has(t) :: !Covered(BusySpans(rows, tenant, resource, window, now), t)
  }

  /** What the query window shows as free can be reserved once expired holds are purged. */
  ghost predicate Trustworthy(window: Interval, block: Interval) {
    forall rows, tenant, resource, now |
      TableFor(rows, tenant, resource) && SeenFree(rows, tenant, resource, window, now, block) ::
      Free(Purged(rows, tenant, [resource], now), resource, block)
  }

  /** A busy span misses a block that is seen free. */
  lemma BusyMissesFree(rows: Rows, tenant: Tenant, resource: Resource, window: Interval, now: Time,
      block: Interval, i: nat)
    requires SeenFree(rows, tenant, resource, window, now, block)
    requires i < |rows| && rows[i].span.start < rows[i].span.end && Busy(rows[i], tenant, resource, window, now)
    ensures !RangesMeet(rows[i].span, block)
  {
    BusySpansAre(rows, tenant, resource, window, now);
    var spans := BusySpans(rows, tenant, resource, window, now);
    assert rows[i].span in spans;
    var k :| 0 <= k < |spans| && spans[k] == rows[i].span;
    assert forall t | rows[i].span.Has(t) :: Covered(spans, t);
    if block.start < block.end {
      OverlapIsCommonInstant(rows[i].span, block);
    }
  }

  lemma SeenIsFree(rows: Rows, tenant: Tenant, resource: Resource, window: Interval, now: Time,
      block: Interval, resources: seq<Resource>)
    requires TableFor(rows, tenant, resource) && SeenFree(rows, tenant, resource, window, now, block)
    requires window.Contains(block) && resource in resources
    ensures Free(Purged(rows, tenant, resources, now), resource, block)
  {
    var after := Purged(rows, tenant, resources, now);
    BusySpansAre(rows, tenant, resource, window, now);
    forall i | 0 <= i < |after| && after[i].Live() && after[i].resource == resource
      ensures !RangesMeet(after[i].span, block)
    {
      if Busy(rows[i], tenant, resource, window, now) {
        BusyMissesFree(rows, tenant, resource, window, now, block, i);
      }
    }
  }

  /** One reservation, for a counterexample. */
  function Single(span: Interval): Rows {
    [Row(0, 0, span, Booking, None, None, None, None)]
  }

  lemma NonemptyHasMember<T(!new)>(s: seq<T>)
    ensures s != [] ==> exists x :: x in s
  {
    if s != [] {
      assert s[0] in s;
    }
  }

  lemma HiddenReservation(window: Interval, block: Interval, span: Interval)
    requires span.start < span.end && block.Contains(span)
    requires span.end <= window.start || window.end <= span.start
    ensures !Trustworthy(window, block)
  {
    var rows := Single(span);
    BusySpansAre(rows, 0, 0, window, 0);
    assert BusySpans(rows, 0, 0, window, 0) == [] by {
      NonemptyHasMember(BusySpans(rows, 0, 0, window, 0));
    }
    assert TableFor(rows, 0, 0) && SeenFree(rows, 0, 0, window, 0, block);
    assert Purged(rows, 0, [0], 0)[0] == rows[0];
    assert RangesMeet(Purged(rows, 0, [0], 0)[0].span, block);
  }

  /** The search can be trusted for every table exactly when its query window contains the
      block it checks, buffers included. */
  lemma WhenSearchCanBeTrusted(window: Interval, block: Interval)
    requires block.start < block.end
    ensures Trustworthy(window, block) <==> window.Contains(block)
  {
    if window.Contains(block) {
      forall rows, tenant, resource, now |
        TableFor(rows, tenant, resource) && SeenFree(rows, tenant, resource, window, now, block)
        ensures Free(Purged(rows, tenant, [resource], now), resource, block)
      {
        SeenIsFree(rows, tenant, resource, window, now, block, [resource]);
      }
    } else if block.start < window.start {
      HiddenReservation(window, block, Interval(block.start, Min(block.end, window.start)));
    } else {
      var from := if window.end >= block.start then window.end else block.start;
      HiddenReservation(window, block, Interval(from, block.end));
    }
  }

  /** The window in which `resolve_slot` looks for one start time. */
  function ResolveWindow(s: Service, startsAt: Time): Interval {
    Interval(startsAt - MINUTE, startsAt + (s.duration + 1) * MINUTE)
  }

  /** So holding and booking can be trusted exactly when neither buffer exceeds a minute. */
  lemma WhenResolvingCanBeTrusted(s: Service, startsAt: Time)
    requires ProperService(s)
    ensures Trustworthy(ResolveWindow(s, startsAt), ReservationWindow(s, startsAt)) <==>
            s.bufferBefore <= 1 && s.bufferAfter <= 1
  {
    WhenSearchCanBeTrusted(ResolveWindow(s, startsAt), ReservationWindow(s, startsAt));
  }

  // ----- The blocked-period query -----

  /** A period `blocks_for_owners` returns for a query window. */
  predicate Meets(period: Interval, window: Interval) {
    period.start < window.end && period.end > window.start
  }

  function Loaded(periods: seq<Interval>, window: Interval): seq<Interval> {
    if periods == [] then []
    else
      var n := |periods| - 1;
      Loaded(periods[..n], window) + if Meets(periods[n], window) then [periods[n]] else []
  }

  lemma {:induction false} LoadedAre(periods: seq<Interval>, window: Interval)
    ensures forall p :: p in Loaded(periods, window) <==> p in periods && Meets(p, window)
  {
    if periods != [] {
      var n := |periods| - 1;
      LoadedAre(periods[..n], window);
      assert periods == periods[..n] + [periods[n]];
    }
  }

  lemma CoveredByMember(xs: seq<Interval>, t: Time)
    ensures Covered(xs, t) <==> exists p :: p in xs && p.Has(t)
  {
    if p :| p in xs && p.Has(t) {
      var k :| 0 <= k < |xs| && xs[k] == p;
    }
  }

  ghost predicate ClearOf(block: Interval, periods: seq<Interval>) {
    forall t | block.Has(t) :: !Covered(periods, t)
  }

  /** No blocked period goes unseen: what the loaded ones leave clear is clear. */
  ghost predicate BlocksTrustworthy(window: Interval, block: Interval) {
    forall periods | Nonempty(periods) && ClearOf(block, Loaded(periods, window)) :: ClearOf(block, periods)
  }

  lemma LoadedIsClear(periods: seq<Interval>, window: Interval, block: Interval)
    requires window.Contains(block) && ClearOf(block, Loaded(periods, window))
    ensures ClearOf(block, periods)
  {
    LoadedAre(periods, window);
    forall t | block.Has(t) ensures !Covered(periods, t) {
      CoveredByMember(periods, t);
      CoveredByMember(Loaded(periods, window), t);
      assert forall p | p in periods && p.Has(t) :: Meets(p, window) && p in Loaded(periods, window);
    }
  }

  lemma HiddenPeriod(window: Interval, block: Interval, period: Interval)
    requires period.start < period.end && block.Contains(period) && !Meets(period, window)
    ensures Loaded([period], window) == [] && !ClearOf(block, [period]) && !BlocksTrustworthy(window, block)
  {
    var t := period.start;
    assert [period][..0] == [] && [period][0].Has(t) && block.Has(t);
    assert Covered([period], t) && ClearOf(block, []);
  }

  /** Blocked periods can be trusted, whatever they are, exactly when their query window
      contains the block, buffers included. */
  lemma WhenBlocksCanBeTrusted(window: Interval, block: Interval)
    requires block.start < block.end
    ensures BlocksTrustworthy(window, block) <==> window.Contains(block)
  {
    if window.Contains(block) {
      forall periods | Nonempty(periods) && ClearOf(block, Loaded(periods, window)) ensures ClearOf(block, periods) {
        LoadedIsClear(periods, window, block);
      }
    } else if block.start < window.start {
      HiddenPeriod(window, block, Interval(block.start, Min(block.end, window.start)));
    } else {
      var from := if window.end >= block.start then window.end else block.start;
      HiddenPeriod(window, block, Interval(from, block.end));
    }
  }

  /** For resolve_slot: exactly when neither buffer exceeds a minute. */
  lemma WhenResolvingSeesBlocks(s: Service, startsAt: Time)
    requires ProperService(s)
    ensures BlocksTrustworthy(ResolveWindow(s, startsAt), ReservationWindow(s, startsAt)) <==>
            s.bufferBefore <= 1 && s.bufferAfter <= 1
  {
    WhenBlocksCanBeTrusted(ResolveWindow(s, startsAt), ReservationWindow(s, startsAt));
  }

  /** Half an hour with ten minutes of clean-up, the branch closing 35 minutes after the start:
      the closure lies in the reserved time, and is not loaded. */
  lemma ClosureInBufferIsMissed(s: Service, startsAt: Time, reopens: Time)
    requires s.duration == 30 && s.bufferBefore == 0 && s.bufferAfter == 10
    requires reopens > startsAt + 35 * MINUTE
    ensures var closure := Interval(startsAt + 35 * MINUTE, reopens);
      && Loaded([closure], ResolveWindow(s, startsAt)) == []
      && !ClearOf(ReservationWindow(s, startsAt), [closure])
  {
    var closure := Interval(startsAt + 35 * MINUTE, reopens);
    assert [closure][..0] == [] && [closure][0].Has(startsAt + 35 * MINUTE);
    assert ReservationWindow(s, startsAt).Has(startsAt + 35 * MINUTE);
  }

  // ----- Holding a slot -----

  ghost predicate RightTable(rows: Rows, tenant: Tenant, resources: set<Resource>) {
    Guarded(rows) && BookingsStay(rows) && forall id | id in resources :: OwnRows(rows, tenant, id)
  }

  predicate AllQueried(world: Inputs, resources: set<Resource>) {
    forall r, k | 0 <= r < |world.roles| && 0 <= k < |world.roles[r]| :: world.roles[r][k].id in resources
  }

  lemma BusyIsProper(rows: Rows, tenant: Tenant, resources: set<Resource>, window: Interval, now: Time)
    requires RightTable(rows, tenant, resources)
    ensures forall id | id in resources :: Nonempty(BusySpans(rows, tenant, id, window, now))
  {
    forall id | id in resources ensures Nonempty(BusySpans(rows, tenant, id, window, now)) {
      BusySpansAre(rows, tenant, id, window, now);
      var spans := BusySpans(rows, tenant, id, window, now);
      forall k | 0 <= k < |spans| ensures spans[k].start < spans[k].end {
        assert spans[k] in spans;
      }
    }
  }

  /** Every resource of a picked slot is free once expired holds are purged, if the query
      window contains the block. */
  lemma PickedIsReservable(rows: Rows, tenant: Tenant, resources: set<Resource>, world: Inputs, window: Interval,
      now: Time, block: Interval, preferred: Option<Resource>)
    requires RightTable(rows, tenant, resources) && AllQueried(world, resources)
    requires block.start < block.end && window.Contains(block)
    requires var inputs := Load(world, rows, tenant, resources, window, now);
      Picked(inputs, |inputs.roles|, block, preferred).Some?
    ensures var inputs := Load(world, rows, tenant, resources, window, now);
      var ids := Picked(inputs, |inputs.roles|, block, preferred).value;
      Reservable(Purged(rows, tenant, ids, now), ids, block)
  {
    var inputs := Load(world, rows, tenant, resources, window, now);
    var ids := Picked(inputs, |inputs.roles|, block, preferred).value;
    PickedServes(inputs, |inputs.roles|, block, preferred);
    forall r | 0 <= r < |ids| ensures Free(Purged(rows, tenant, ids, now), ids[r], block) {
      assert Serves(inputs, r, ids[r], block);
      var c :| c in inputs.roles[r] && c.id == ids[r] && Usable(inputs, c, block);
      var r', m := LoadedCandidate(world.roles, window, r, c);
      assert world.roles[r'][m].id in resources;
      assert BusyOf(inputs, c.id) == BusySpans(rows, tenant, c.id, window, now);
      assert TableFor(rows, tenant, ids[r]);
      SeenIsFree(rows, tenant, ids[r], window, now, block, ids);
    }
  }

  const RESOLVE_LIMIT := 64

  function ResolveRequest(s: Service, startsAt: Time, preferred: Option<Resource>): Request {
    var window := ResolveWindow(s, startsAt);
    Request(window.start, window.end, 1, RESOLVE_LIMIT, preferred)
  }

  /** Offered start times are at least a minute apart: within a stretch by the grid, across
      stretches by the appointment's length. */
  lemma StartsApart(request: Request, inputs: Inputs, s: Service, now: Time, windows: seq<Interval>,
      slots: seq<Slot>, i: nat, j: nat)
    requires Separated(windows) && ProperService(s)
    requires AllGenuine(request, inputs, s, now, windows, |windows|, slots) && Ascending(slots)
    requires i < j < |slots|
    ensures slots[i].startsAt + MINUTE <= slots[j].startsAt
  {
    assert Genuine(request, inputs, s, now, windows, |windows|, slots[i]);
    assert Genuine(request, inputs, s, now, windows, |windows|, slots[j]);
    var k :| 0 <= k < |windows| && GenuineIn(request, inputs, s, now, windows[k], slots[i]);
    var m :| 0 <= m < |windows| && GenuineIn(request, inputs, s, now, windows[m], slots[j]);
    if k == m {
      GridNext(slots[i].startsAt, windows[k].start, GridStep(request));
      assert GridStep(request) >= MINUTE;
    }
  }

  lemma {:induction false} SpreadOut(slots: seq<Slot>, n: nat)
    requires n < |slots| && forall i, j | 0 <= i < j < |slots| :: slots[i].startsAt + MINUTE <= slots[j].startsAt
    ensures slots[0].startsAt + n * MINUTE <= slots[n].startsAt
  {
    if n > 0 {
      SpreadOut(slots, n - 1);
    }
  }

  /** The two-minute window of resolve_slot never fills its limit. */
  lemma LimitIsNeverReached(s: Service, startsAt: Time, preferred: Option<Resource>, inputs: Inputs, now: Time,
      windows: seq<Interval>, slots: seq<Slot>)
    requires Separated(windows) && ProperService(s)
    requires AllGenuine(ResolveRequest(s, startsAt, preferred), inputs, s, now, windows, |windows|, slots)
    requires Ascending(slots)
    ensures |slots| < 64 == RESOLVE_LIMIT
  {
    var request := ResolveRequest(s, startsAt, preferred);
    if slots != [] {
      forall i, j | 0 <= i < j < |slots| ensures slots[i].startsAt + MINUTE <= slots[j].startsAt {
        StartsApart(request, inputs, s, now, windows, slots, i, j);
      }
      SpreadOut(slots, |slots| - 1);
      assert Genuine(request, inputs, s, now, windows, |windows|, slots[0]);
      assert Genuine(request, inputs, s, now, windows, |windows|, slots[|slots| - 1]);
    }
  }

  /** The engine offers the start time out of some stretch of opening hours. */
  ghost predicate OfferableSomewhere(request: Request, inputs: Inputs, s: Service, now: Time,
      windows: seq<Interval>, t: Time)
  {
    exists k :: 0 <= k < |windows| && Offerable(request, inputs, s, now, windows[k], t)
  }

  lemma NowhereOfferable(request: Request, inputs: Inputs, s: Service, now: Time, windows: seq<Interval>,
      slots: seq<Slot>, t: Time)
    requires AllOffered(request, inputs, s, now, windows, |windows|, slots)
    requires |slots| < request.limit && !Offers(slots, t)
    ensures !OfferableSomewhere(request, inputs, s, now, windows, t)
  {
    assert !Reached(request, slots, t);
  }

  /** `resolve_slot`: finds the slot exactly when the engine could offer that start time. */
  method ResolveSlot(inputs: Inputs, s: Service, startsAt: Time, preferred: Option<Resource>, now: Time)
    returns (slot: Option<Slot>, ghost windows: seq<Interval>)
    requires ProperInputs(inputs) && Consistent(inputs) && ProperService(s)
    ensures Separated(windows) && forall t :: Covered(windows, t) <==> Covered(inputs.openings, t)
    ensures slot.Some? <==>
      (s.active && OfferableSomewhere(ResolveRequest(s, startsAt, preferred), inputs, s, now, windows, startsAt))
    ensures slot.Some? ==> slot.value.startsAt == startsAt
    ensures slot.Some? ==>
      Picked(inputs, |inputs.roles|, ReservationWindow(s, startsAt), preferred) == Some(slot.value.resources)
  {
    var slots;
    slots, windows := ComputeSlots(ResolveRequest(s, startsAt, preferred), inputs, s, now);
    LimitIsNeverReached(s, startsAt, preferred, inputs, now, windows, slots);
    for i := 0 to |slots|
      invariant forall j | 0 <= j < i :: slots[j].startsAt != startsAt
    {
      assert Genuine(ResolveRequest(s, startsAt, preferred), inputs, s, now, windows, |windows|, slots[i]);
      if slots[i].startsAt == startsAt {
        return Some(slots[i]), windows;
      }
    }
    if s.active {
      NowhereOfferable(ResolveRequest(s, startsAt, preferred), inputs, s, now, windows, slots, startsAt);
    }
    return None, windows;
  }

  // ----- Loading the world -----

  /** A candidate with its blocked periods as far as they meet the query window. */
  function Seen(c: Candidate, window: Interval): Candidate { c.(blocks := Loaded(c.blocks, window)) }

  /** What the loader keeps of a role: active resources not pinned to another branch. */
  predicate Eligible(c: Candidate) { c.active && !c.elsewhere }

  function LoadRole(cs: seq<Candidate>, window: Interval): seq<Candidate> {
    if cs == [] then []
    else
      var n := |cs| - 1;
      LoadRole(cs[..n], window) + if Eligible(cs[n]) then [Seen(cs[n], window)] else []
  }

  /** A role comes into being with its first candidate, so one left without any is not there. */
  function LoadRoles(roles: seq<seq<Candidate>>, window: Interval): seq<seq<Candidate>> {
    if roles == [] then []
    else
      var n := |roles| - 1;
      var role := LoadRole(roles[n], window);
      LoadRoles(roles[..n], window) + if role == [] then [] else [role]
  }

  /** `load_availability_inputs`: the eligible candidates of each role, blocked periods and busy
      time as far as they meet the query window. */
  function Load(world: Inputs, rows: Rows, tenant: Tenant, resources: set<Resource>, window: Interval,
      now: Time): Inputs
  {
    Inputs(
      world.openings,
      Loaded(world.closures, window),
      LoadRoles(world.roles, window),
      BusyIntervals(rows, tenant, resources, window, now))
  }

  lemma LoadRoleLast(cs: seq<Candidate>, c: Candidate, window: Interval)
    ensures LoadRole(cs + [c], window) == LoadRole(cs, window) + if Eligible(c) then [Seen(c, window)] else []
  {
    assert (cs + [c])[..|cs|] == cs;
  }

  lemma LoadRoleOfOne(c: Candidate, window: Interval)
    ensures LoadRole([c], window) == if Eligible(c) then [Seen(c, window)] else []
  {
    LoadRoleLast([], c, window);
    assert LoadRole([], window) == [] && [] + [c] == [c];
  }

  lemma LoadRolesLast(css: seq<seq<Candidate>>, cs: seq<Candidate>, window: Interval)
    ensures LoadRoles(css + [cs], window) ==
            LoadRoles(css, window) + if LoadRole(cs, window) == [] then [] else [LoadRole(cs, window)]
  {
    assert (css + [cs])[..|css|] == css;
  }

  lemma {:induction false} LoadRoleMembers(cs: seq<Candidate>, window: Interval)
    ensures forall c | c in LoadRole(cs, window) ::
      exists m :: 0 <= m < |cs| && Eligible(cs[m]) && c == Seen(cs[m], window)
    ensures LoadRole(cs, window) != [] <==> exists m :: 0 <= m < |cs| && Eligible(cs[m])
  {
    if cs != [] {
      var n := |cs| - 1;
      LoadRoleMembers(cs[..n], window);
      assert forall m | 0 <= m < n :: cs[..n][m] == cs[m];
    }
  }

  /** A role keeps, in their order and with their blocked periods as far as they meet the window,
      its active candidates that are not pinned to another branch, and nobody else. */
  lemma {:induction false} WhatARoleKeeps(cs: seq<Candidate>, window: Interval) returns (kept: seq<nat>)
    ensures |kept| == |LoadRole(cs, window)|
    ensures forall j | 0 <= j < |kept| ::
      && kept[j] < |cs| && cs[kept[j]].active && !cs[kept[j]].elsewhere
      && LoadRole(cs, window)[j] == cs[kept[j]].(blocks := Loaded(cs[kept[j]].blocks, window))
    ensures forall i, j | 0 <= i < j < |kept| :: kept[i] < kept[j]
    ensures forall m: nat | m < |cs| && cs[m].active && !cs[m].elsewhere :: m in kept
  {
    kept := [];
    if cs != [] {
      var n := |cs| - 1;
      var init := WhatARoleKeeps(cs[..n], window);
      if cs[n].active && !cs[n].elsewhere {
        kept := init + [n];
        assert forall m: nat | m in init || m == n :: m in kept by {
          assert kept[|init|] == n;
        }
      } else {
        kept := init;
      }
    }
  }

  /** Some candidate of that id is active and not pinned to another branch. */
  ghost predicate WorksHere(world: Inputs, id: Resource) {
    exists r, k :: 0 <= r < |world.roles| && 0 <= k < |world.roles[r]| && world.roles[r][k].id == id &&
      world.roles[r][k].active && !world.roles[r][k].elsewhere
  }

  /** Whoever is picked on the loaded world is an active candidate of the real one, and works at
      this branch or at any. */
  lemma PickedWorksHere(world: Inputs, rows: Rows, tenant: Tenant, resources: set<Resource>, window: Interval,
      now: Time, block: Interval, preferred: Option<Resource>)
    requires var inputs := Load(world, rows, tenant, resources, window, now);
      Picked(inputs, |inputs.roles|, block, preferred).Some?
    ensures var inputs := Load(world, rows, tenant, resources, window, now);
      var ids := Picked(inputs, |inputs.roles|, block, preferred).value;
      forall j | 0 <= j < |ids| :: WorksHere(world, ids[j])
  {
    var inputs := Load(world, rows, tenant, resources, window, now);
    var ids := Picked(inputs, |inputs.roles|, block, preferred).value;
    PickedServes(inputs, |inputs.roles|, block, preferred);
    forall j | 0 <= j < |ids| ensures WorksHere(world, ids[j]) {
      assert Serves(inputs, j, ids[j], block);
      var c :| c in inputs.roles[j] && c.id == ids[j] && Usable(inputs, c, block);
      var r, m := LoadedCandidate(world.roles, window, j, c);
    }
  }

  /** Where role r is found after loading, if it keeps a candidate. */
  function Rank(roles: seq<seq<Candidate>>, window: Interval, r: nat): nat
    requires r <= |roles|
  {
    |LoadRoles(roles[..r], window)|
  }

  lemma {:induction false} RankedRole(roles: seq<seq<Candidate>>, window: Interval, r: nat)
    requires r < |roles| && LoadRole(roles[r], window) != []
    ensures Rank(roles, window, r) < |LoadRoles(roles, window)|
    ensures LoadRoles(roles, window)[Rank(roles, window, r)] == LoadRole(roles[r], window)
  {
    var n := |roles| - 1;
    if r < n {
      RankedRole(roles[..n], window, r);
      assert roles[..n][..r] == roles[..r];
    } else {
      assert roles[..r] == roles[..n];
    }
  }

  /** Every loaded role is some role of the world. */
  lemma {:induction false} LoadedRoleIsRanked(roles: seq<seq<Candidate>>, window: Interval, j: nat) returns (r: nat)
    requires j < |LoadRoles(roles, window)|
    ensures r < |roles| && LoadRoles(roles, window)[j] == LoadRole(roles[r], window) != []
  {
    var n := |roles| - 1;
    if j < |LoadRoles(roles[..n], window)| {
      r := LoadedRoleIsRanked(roles[..n], window, j);
    } else {
      r := n;
    }
  }

  lemma LoadedCandidate(roles: seq<seq<Candidate>>, window: Interval, j: nat, c: Candidate) returns (r: nat, m: nat)
    requires j < |LoadRoles(roles, window)| && c in LoadRoles(roles, window)[j]
    ensures r < |roles| && m < |roles[r]| && Eligible(roles[r][m]) && c == Seen(roles[r][m], window)
  {
    r := LoadedRoleIsRanked(roles, window, j);
    LoadRoleMembers(roles[r], window);
    m :| 0 <= m < |roles[r]| && Eligible(roles[r][m]) && c == Seen(roles[r][m], window);
  }

  lemma LoadedIsProper(periods: seq<Interval>, window: Interval)
    requires Nonempty(periods)
    ensures Nonempty(Loaded(periods, window))
  {
    LoadedAre(periods, window);
    var loaded := Loaded(periods, window);
    forall k | 0 <= k < |loaded| ensures loaded[k].start < loaded[k].end {
      assert loaded[k] in loaded;
      var i :| 0 <= i < |periods| && periods[i] == loaded[k];
    }
  }

  lemma LoadIsProper(world: Inputs, rows: Rows, tenant: Tenant, resources: set<Resource>, window: Interval, now: Time)
    requires ProperInputs(world) && Consistent(world) && RightTable(rows, tenant, resources)
    ensures var inputs := Load(world, rows, tenant, resources, window, now);
      ProperInputs(inputs) && Consistent(inputs)
  {
    var inputs := Load(world, rows, tenant, resources, window, now);
    BusyIsProper(rows, tenant, resources, window, now);
    LoadedIsProper(world.closures, window);
    forall j, k | 0 <= j < |inputs.roles| && 0 <= k < |inputs.roles[j]| ensures ProperCandidate(inputs.roles[j][k]) {
      var r, m := LoadedCandidate(world.roles, window, j, inputs.roles[j][k]);
      assert ProperCandidate(world.roles[r][m]);
      LoadedIsProper(world.roles[r][m].blocks, window);
    }
    LoadIsConsistent(world, rows, tenant, resources, window, now);
  }

  lemma LoadIsConsistent(world: Inputs, rows: Rows, tenant: Tenant, resources: set<Resource>, window: Interval,
      now: Time)
    requires Consistent(world)
    ensures Consistent(Load(world, rows, tenant, resources, window, now))
  {
    var inputs := Load(world, rows, tenant, resources, window, now);
    forall j, k, j', k' | 0 <= j < |inputs.roles| && 0 <= k < |inputs.roles[j]| &&
      0 <= j' < |inputs.roles| && 0 <= k' < |inputs.roles[j']| &&
      inputs.roles[j][k].id == inputs.roles[j'][k'].id
      ensures inputs.roles[j][k] == inputs.roles[j'][k']
    {
      var r, m := LoadedCandidate(world.roles, window, j, inputs.roles[j][k]);
      var r', m' := LoadedCandidate(world.roles, window, j', inputs.roles[j'][k']);
      assert world.roles[r][m] == world.roles[r'][m'];
    }
  }

  /** The resource is not blocked, by any of its periods, during the block. */
  ghost predicate UnblockedIn(world: Inputs, id: Resource, block: Interval) {
    exists r, k :: 0 <= r < |world.roles| && 0 <= k < |world.roles[r]| &&
      world.roles[r][k].id == id && ClearOf(block, world.roles[r][k].blocks)
  }

  /** What is picked on the loaded world is not blocked in the real one, if the query window
      contains the block. */
  lemma PickedIsUnblocked(world: Inputs, rows: Rows, tenant: Tenant, resources: set<Resource>, window: Interval,
      now: Time, block: Interval, preferred: Option<Resource>)
    requires window.Contains(block)
    requires var inputs := Load(world, rows, tenant, resources, window, now);
      Picked(inputs, |inputs.roles|, block, preferred).Some?
    ensures var inputs := Load(world, rows, tenant, resources, window, now);
      var ids := Picked(inputs, |inputs.roles|, block, preferred).value;
      forall r | 0 <= r < |ids| :: UnblockedIn(world, ids[r], block)
  {
    var inputs := Load(world, rows, tenant, resources, window, now);
    var ids := Picked(inputs, |inputs.roles|, block, preferred).value;
    PickedServes(inputs, |inputs.roles|, block, preferred);
    forall r | 0 <= r < |ids| ensures UnblockedIn(world, ids[r], block) {
      assert Serves(inputs, r, ids[r], block);
      var c :| c in inputs.roles[r] && c.id == ids[r] && Usable(inputs, c, block);
      var r', m := LoadedCandidate(world.roles, window, r, c);
      LoadedIsClear(world.roles[r'][m].blocks, window, block);
    }
  }

  // ----- Required roles -----

  /** Some picked resource is a candidate of role r. */
  ghost predicate ServesRole(world: Inputs, ids: seq<Resource>, r: nat)
    requires r < |world.roles|
  {
    exists j, k :: 0 <= j < |ids| && 0 <= k < |world.roles[r]| && ids[j] == world.roles[r][k].id
  }

  ghost predicate ServesEveryRole(world: Inputs, ids: seq<Resource>) {
    forall r | 0 <= r < |world.roles| :: ServesRole(world, ids, r)
  }

  predicate KeepsCandidate(role: seq<Candidate>) { exists k :: 0 <= k < |role| && Eligible(role[k]) }

  predicate EveryRoleKept(world: Inputs) {
    forall r | 0 <= r < |world.roles| :: KeepsCandidate(world.roles[r])
  }

  /** A slot picked on the loaded world serves every required role exactly when every required
      role keeps a candidate after loading. */
  lemma WhenEveryRoleIsServed(world: Inputs, rows: Rows, tenant: Tenant, resources: set<Resource>, window: Interval,
      now: Time, block: Interval, preferred: Option<Resource>)
    requires Consistent(world)
    requires var inputs := Load(world, rows, tenant, resources, window, now);
      Picked(inputs, |inputs.roles|, block, preferred).Some?
    ensures var inputs := Load(world, rows, tenant, resources, window, now);
      ServesEveryRole(world, Picked(inputs, |inputs.roles|, block, preferred).value) <==> EveryRoleKept(world)
  {
    var inputs := Load(world, rows, tenant, resources, window, now);
    var ids := Picked(inputs, |inputs.roles|, block, preferred).value;
    PickedServes(inputs, |inputs.roles|, block, preferred);
    forall r: nat | r < |world.roles| ensures ServesRole(world, ids, r) <==> KeepsCandidate(world.roles[r]) {
      LoadRoleMembers(world.roles[r], window);
      if KeepsCandidate(world.roles[r]) {
        RankedRole(world.roles, window, r);
        var j := Rank(world.roles, window, r);
        assert Serves(inputs, j, ids[j], block);
      }
      if ServesRole(world, ids, r) {
        var j, k :| 0 <= j < |ids| && 0 <= k < |world.roles[r]| && ids[j] == world.roles[r][k].id;
        assert Serves(inputs, j, ids[j], block);
        var c :| c in inputs.roles[j] && c.id == ids[j] && Usable(inputs, c, block);
        var r', m := LoadedCandidate(world.roles, window, j, c);
        assert world.roles[r][k] == world.roles[r'][m];
      }
    }
  }

  /** A consultation whose only room is switched off is offered without a room. */
  lemma InactiveRoomVanishes(doctor: Candidate, room: Candidate, window: Interval)
    requires Eligible(doctor) && !room.active
    ensures LoadRoles([[doctor], [room]], window) == [[Seen(doctor, window)]]
  {
    LoadRoleOfOne(doctor, window);
    LoadRoleOfOne(room, window);
    LoadRolesLast([], [doctor], window);
    LoadRolesLast([[doctor]], [room], window);
    assert LoadRoles([], window) == [] && [] + [[doctor]] == [[doctor]];
    assert LoadRoles([[doctor]], window) == [[Seen(doctor, window)]];
    assert [[doctor]] + [[room]] == [[doctor], [room]];
  }

  datatype HoldOutcome = Held(slot: Slot) | NotAvailable | JustTaken

  /** `HoldSlot`, its transaction alone on the table: resolve the slot, purge expired holds,
      reserve. The outcome is that of the loaded world; with buffers of at most a minute a slot
      that resolves is always held, and nothing blocks it. */
  method HoldSlot(table: ReservationTable, tenant: Tenant, resources: set<Resource>, world: Inputs, s: Service,
      startsAt: Time, preferred: Option<Resource>, now: Time, token: string, ttl: Time)
    returns (outcome: HoldOutcome, ghost windows: seq<Interval>)
    requires RightTable(table.rows, tenant, resources) && AllQueried(world, resources)
    requires ProperInputs(world) && Consistent(world) && ProperService(s)
    modifies table
    ensures Guarded(table.rows)
    ensures Separated(windows) && forall t :: Covered(windows, t) <==> Covered(world.openings, t)
    ensures var inputs := Load(world, old(table.rows), tenant, resources, ResolveWindow(s, startsAt), now);
      var offered := s.active &&
        OfferableSomewhere(ResolveRequest(s, startsAt, preferred), inputs, s, now, windows, startsAt);
      var ids := Picked(inputs, |inputs.roles|, ReservationWindow(s, startsAt), preferred);
      match outcome
      case NotAvailable => !offered && table.rows == old(table.rows)
      case JustTaken =>
        && offered && table.rows == old(table.rows)
        && !Reservable(Purged(old(table.rows), tenant, ids.value, now), ids.value, ReservationWindow(s, startsAt))
      case Held(slot) =>
        && offered && slot.startsAt == startsAt && ids == Some(slot.resources)
        && table.rows == Purged(old(table.rows), tenant, slot.resources, now) +
             ClaimedAll(Claim(tenant, ReservationWindow(s, startsAt), Hold, None, Some(token), Some(now + ttl)),
                        slot.resources)
    ensures s.bufferBefore <= 1 && s.bufferAfter <= 1 ==>
      match outcome
      case NotAvailable => true
      case JustTaken => false
      case Held(slot) =>
        && ClearOf(ReservationWindow(s, startsAt), world.closures)
        && forall r | 0 <= r < |slot.resources| ::
             UnblockedIn(world, slot.resources[r], ReservationWindow(s, startsAt))
    ensures outcome.Held? ==> (ServesEveryRole(world, outcome.slot.resources) <==> EveryRoleKept(world))
    ensures outcome.Held? ==>
      forall j | 0 <= j < |outcome.slot.resources| :: WorksHere(world, outcome.slot.resources[j])
  {
    var before := table.rows;
    var window := ResolveWindow(s, startsAt);
    windows := [];
    var inputs := Load(world, before, tenant, resources, window, now);
    LoadIsProper(world, before, tenant, resources, window, now);
    var slot;
    slot, windows := ResolveSlot(inputs, s, startsAt, preferred, now);
    if slot.None? {
      outcome := NotAvailable;
      return;
    }
    var ids, block := slot.value.resources, ReservationWindow(s, startsAt);
    table.PurgeExpiredHolds(tenant, ids, now);
    UpdatesOnlyRelease(before, Purge(tenant, ids, now));
    StepKeeps(before, Purge(tenant, ids, now));
    if window.Contains(block) {
      PickedIsReservable(before, tenant, resources, world, window, now, block, preferred);
      PickedIsUnblocked(world, before, tenant, resources, window, now, block, preferred);
      LoadedIsClear(world.closures, window, block);
    }
    var claim := Claim(tenant, block, Hold, None, Some(token), Some(now + ttl));
    ghost var purged := table.rows;
    var result := table.Reserve(claim, ids);
    if result != Reserved {
      table.rows := before;
      outcome := JustTaken;
      return;
    }
    ReserveKeepsGuard(purged, claim, ids);
    WhenEveryRoleIsServed(world, before, tenant, resources, window, now, block, preferred);
    PickedWorksHere(world, before, tenant, resources, window, now, block, preferred);
    outcome := Held(slot.value);
  }
}
