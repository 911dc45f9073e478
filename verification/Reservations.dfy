/** The double-booking guard: the resource_reservations table of migration 0025 with its
    exclusion constraint, and the statements the reservation repository issues against it. */
module Reservations {
  import opened Basics

  type Time = int // microseconds
  type Resource = int
  type Tenant = int
  /** Half-open: [start, end). */
  datatype Interval = Interval(start: Time, end: Time)
  {
    /** The availability engine's `Interval.overlaps`. */
    predicate Overlaps(other: Interval) { start < other.end && other.start < end }

    /** The engine's `Interval.contains`. */
    predicate Contains(other: Interval) { start <= other.start && other.end <= end }

    predicate Has(t: Time) { start <= t < end }
  }

  /** `&&` on tstzrange(.., '[)'): an empty range overlaps nothing. */
  predicate RangesMeet(a: Interval, b: Interval) {
    a.start < a.end && b.start < b.end && a.Overlaps(b)
  }

  datatype Kind = Hold | Booking

  datatype Row = Row(
    tenant: Tenant, resource: Resource, span: Interval, kind: Kind,
    appointment: Option<int>, token: Option<string>, expires: Option<Time>, released: Option<Time>)
  {
    predicate Live() { released == None }
  }

  /** Rows are never deleted; a row's id is its position. */
  type Rows = seq<Row>

  /** EXCLUDE USING gist (resource_id WITH =, span WITH &&) WHERE (released_at IS NULL). */
  predicate Guarded(rows: Rows) {
    && (forall i | 0 <= i < |rows| && rows[i].Live() :: rows[i].span.start <= rows[i].span.end)
    && (forall i, j | 0 <= i < j < |rows| && rows[i].Live() && rows[j].Live() ::
          rows[i].resource == rows[j].resource ==> !RangesMeet(rows[i].span, rows[j].span))
  }

  /** Only holds expire. */
  predicate BookingsStay(rows: Rows) {
    forall i | 0 <= i < |rows| && rows[i].kind == Booking :: rows[i].expires == None
  }

  /** No live row of the resource meets the window. */
  predicate Free(rows: Rows, resource: Resource, window: Interval) {
    forall i | 0 <= i < |rows| && rows[i].Live() && rows[i].resource == resource ::
      !RangesMeet(rows[i].span, window)
  }

  // ----- The statements -----

  datatype Claim = Claim(tenant: Tenant, window: Interval, kind: Kind,
    appointment: Option<int>, token: Option<string>, expires: Option<Time>)

  function Claimed(c: Claim, resource: Resource): Row {
    Row(c.tenant, resource, c.window, c.kind, c.appointment, c.token, c.expires, None)
  }

  function ClaimedAll(c: Claim, resources: seq<Resource>): Rows {
    seq(|resources|, i requires 0 <= i < |resources| => Claimed(c, resources[i]))
  }

  predicate Distinct(resources: seq<Resource>) {
    forall i, j | 0 <= i < j < |resources| :: resources[i] != resources[j]
  }

  /** Reserving succeeds: a proper range, every resource free, none asked for twice. */
  predicate Reservable(rows: Rows, resources: seq<Resource>, window: Interval) {
    resources == [] ||
    (&& window.start <= window.end
     && (forall i | 0 <= i < |resources| :: Free(rows, resources[i], window))
     && (window.start < window.end ==> Distinct(resources)))
  }

  function Release(r: Row, now: Time): Row { r.(released := Some(now)) }

  predicate ExpiredHold(r: Row, now: Time) {
    r.kind == Hold && r.Live() && r.expires.Some? && r.expires.value <= now
  }

  predicate IsHold(r: Row, tenant: Tenant, token: string) {
    r.tenant == tenant && r.token == Some(token) && r.kind == Hold && r.Live()
  }

  /** One UPDATE: chosen rows change, all at once. */
  function Purged(rows: Rows, tenant: Tenant, resources: seq<Resource>, now: Time): (r: Rows)
    ensures |r| == |rows|
  {
    seq(|rows|, i requires 0 <= i < |rows| =>
      if rows[i].tenant == tenant && rows[i].resource in resources && ExpiredHold(rows[i], now)
      then Release(rows[i], now) else rows[i])
  }

  function HoldReleased(rows: Rows, tenant: Tenant, token: string, now: Time): (r: Rows)
    ensures |r| == |rows|
  {
    seq(|rows|, i requires 0 <= i < |rows| =>
      if IsHold(rows[i], tenant, token) then Release(rows[i], now) else rows[i])
  }

  function AppointmentReleased(rows: Rows, tenant: Tenant, appointment: int, now: Time): (r: Rows)
    ensures |r| == |rows|
  {
    seq(|rows|, i requires 0 <= i < |rows| =>
      if rows[i].tenant == tenant && rows[i].appointment == Some(appointment) && rows[i].Live()
      then Release(rows[i], now) else rows[i])
  }

  /** The sweep releases some of the expired holds: those its LIMIT lets through. */
  function Swept(rows: Rows, picked: set<nat>, now: Time): (r: Rows)
    ensures |r| == |rows|
  {
    seq(|rows|, i requires 0 <= i < |rows| =>
      if i in picked && ExpiredHold(rows[i], now) then Release(rows[i], now) else rows[i])
  }

  function Converted(r: Row, appointment: int): Row {
    r.(kind := Booking, appointment := Some(appointment), token := None, expires := None)
  }

  function HoldConverted(rows: Rows, tenant: Tenant, token: string, appointment: int): (r: Rows)
    ensures |r| == |rows|
  {
    seq(|rows|, i requires 0 <= i < |rows| =>
      if IsHold(rows[i], tenant, token) then Converted(rows[i], appointment) else rows[i])
  }

  /** Row by row, what each UPDATE releases: a hold of the tenant on the resources whose time has
      come; a live hold of the token; whatever is live for the appointment; the expired holds
      picked. The row keeps everything but the release. */
  lemma WhatIsReleased(rows: Rows, tenant: Tenant, resources: seq<Resource>, token: string, appointment: int,
      picked: set<nat>, now: Time, i: nat)
    requires i < |rows|
    ensures var r := rows[i];
      var released := Row(r.tenant, r.resource, r.span, r.kind, r.appointment, r.token, r.expires, Some(now));
      var mine, live := r.tenant == tenant, r.released == None;
      var timedOut := r.kind == Hold && live && r.expires.Some? && r.expires.value <= now;
      && Purged(rows, tenant, resources, now)[i] ==
           (if mine && r.resource in resources && timedOut then released else r)
      && HoldReleased(rows, tenant, token, now)[i] ==
           (if mine && r.kind == Hold && live && r.token == Some(token) then released else r)
      && AppointmentReleased(rows, tenant, appointment, now)[i] ==
           (if mine && live && r.appointment == Some(appointment) then released else r)
      && Swept(rows, picked, now)[i] == (if i in picked && timedOut then released else r)
  {
  }

  /** Row by row, what converting makes of a live hold of the token: a booking of the appointment,
      for the same tenant, resource and time, without token or expiry, and live. */
  lemma WhatIsConverted(rows: Rows, tenant: Tenant, token: string, appointment: int, i: nat)
    requires i < |rows|
    ensures var r := rows[i];
      HoldConverted(rows, tenant, token, appointment)[i] ==
        if r.tenant == tenant && r.kind == Hold && r.released == None && r.token == Some(token)
        then Row(r.tenant, r.resource, r.span, Booking, Some(appointment), None, None, None)
        else r
  {
  }

  /** A claim makes one live row per resource, in order, with all that was claimed. */
  lemma WhatIsClaimed(c: Claim, resources: seq<Resource>, i: nat)
    requires i < |resources|
    ensures |ClaimedAll(c, resources)| == |resources|
    ensures ClaimedAll(c, resources)[i] ==
      Row(c.tenant, resources[i], c.window, c.kind, c.appointment, c.token, c.expires, None)
  {
  }

  /** Several resources can be reserved exactly when each can, and none is asked for twice unless
      the time is empty. */
  lemma WhenAllAreReservable(rows: Rows, resources: seq<Resource>, window: Interval)
    ensures Reservable(rows, resources, window) <==>
      && (forall i | 0 <= i < |resources| :: Reservable(rows, [resources[i]], window))
      && (window.start < window.end ==> forall i, j | 0 <= i < j < |resources| :: resources[i] != resources[j])
  {
    forall i | 0 <= i < |resources|
      ensures Reservable(rows, [resources[i]], window) <==>
              window.start <= window.end && Free(rows, resources[i], window)
    {
      assert [resources[i]][0] == resources[i];
    }
    if resources != [] {
      assert Reservable(rows, [resources[0]], window) ==> window.start <= window.end;
    }
  }

  /** Updates leave every row where it is, on its resource, and revive none. */
  predicate OnlyReleases(after: Rows, before: Rows) {
    && |after| == |before|
    && forall i | 0 <= i < |before| ::
         && after[i].span == before[i].span && after[i].resource == before[i].resource
         && (after[i].Live() ==> before[i].Live())
         && (after[i].kind == Booking ==>
               after[i].expires == None || (before[i].kind == Booking && after[i].expires == before[i].expires))
  }

  /** What only releases keeps the guard, and frees no less than there was. */
  lemma ReleasesKeepGuard(after: Rows, before: Rows)
    requires OnlyReleases(after, before)
    ensures Guarded(before) ==> Guarded(after)
    ensures forall resource, window :: Free(before, resource, window) ==> Free(after, resource, window)
  {
  }

  datatype Outcome = Reserved | Conflict | BadRange

  class ReservationTable {
    var rows: Rows

    constructor ()
      ensures rows == []
    {
      rows := [];
    }

    /** One INSERT, as the constraint lets it. */
    method Insert(row: Row) returns (outcome: Outcome)
      requires row.Live()
      modifies this
      ensures outcome == if row.span.start > row.span.end then BadRange
                         else if Free(old(rows), row.resource, row.span) then Reserved else Conflict
      ensures rows == if outcome == Reserved then old(rows) + [row] else old(rows)
    {
      if row.span.start > row.span.end {
        return BadRange;
      }
      for i := 0 to |rows|
        invariant rows == old(rows)
        invariant Free(rows[..i], row.resource, row.span)
      {
        if rows[i].Live() && rows[i].resource == row.resource && RangesMeet(rows[i].span, row.span) {
          return Conflict;
        }
      }
      assert rows[..|rows|] == rows;
      rows := rows + [row];
      return Reserved;
    }

    /** `reserve`: one row per resource inside a savepoint, all or none. */
    method Reserve(c: Claim, resources: seq<Resource>) returns (outcome: Outcome)
      modifies this
      ensures outcome == Reserved <==> Reservable(old(rows), resources, c.window)
      ensures outcome == BadRange <==> resources != [] && c.window.start > c.window.end
      ensures rows == if outcome == Reserved then old(rows) + ClaimedAll(c, resources) else old(rows)
    {
      var savepoint := rows;
      for i := 0 to |resources|
        invariant rows == old(rows) + ClaimedAll(c, resources[..i])
        invariant Reservable(old(rows), resources[..i], c.window)
      {
        ReservableStep(old(rows), c, resources, i);
        outcome := Insert(Claimed(c, resources[i]));
        if outcome != Reserved {
          rows := savepoint;
          return;
        }
        assert ClaimedAll(c, resources[..i + 1]) == ClaimedAll(c, resources[..i]) + [Claimed(c, resources[i])];
      }
      assert resources[..|resources|] == resources;
      return Reserved;
    }

    /** Afterwards no expired hold of the tenant is live on the resources, and every other row
        is as it was. */
    method PurgeExpiredHolds(tenant: Tenant, resources: seq<Resource>, now: Time)
      modifies this
      ensures rows == Purged(old(rows), tenant, resources, now)
      ensures OnlyReleases(rows, old(rows)) && (Guarded(old(rows)) ==> Guarded(rows))
      ensures forall i | 0 <= i < |rows| && rows[i].tenant == tenant && rows[i].resource in resources ::
        !ExpiredHold(rows[i], now)
      ensures forall i | 0 <= i < |rows| && rows[i] != old(rows)[i] ::
        ExpiredHold(old(rows)[i], now) && rows[i] == Release(old(rows)[i], now)
    {
      for i := 0 to |rows|
        invariant |rows| == |old(rows)|
        invariant forall j | 0 <= j < i :: rows[j] == Purged(old(rows), tenant, resources, now)[j]
        invariant forall j | i <= j < |rows| :: rows[j] == old(rows)[j]
      {
        if rows[i].tenant == tenant && rows[i].resource in resources && ExpiredHold(rows[i], now) {
          rows := rows[i := Release(rows[i], now)];
        }
      }
      ReleasesKeepGuard(rows, old(rows));
    }

    /** Afterwards no live hold of the token is left, and every other row is as it was. */
    method ReleaseHold(tenant: Tenant, token: string, now: Time)
      modifies this
      ensures rows == HoldReleased(old(rows), tenant, token, now)
      ensures OnlyReleases(rows, old(rows)) && (Guarded(old(rows)) ==> Guarded(rows))
      ensures forall i | 0 <= i < |rows| :: !IsHold(rows[i], tenant, token)
      ensures forall i | 0 <= i < |rows| && rows[i] != old(rows)[i] ::
        IsHold(old(rows)[i], tenant, token) && rows[i] == Release(old(rows)[i], now)
    {
      for i := 0 to |rows|
        invariant |rows| == |old(rows)|
        invariant forall j | 0 <= j < i :: rows[j] == HoldReleased(old(rows), tenant, token, now)[j]
        invariant forall j | i <= j < |rows| :: rows[j] == old(rows)[j]
      {
        if IsHold(rows[i], tenant, token) {
          rows := rows[i := Release(rows[i], now)];
        }
      }
      ReleasesKeepGuard(rows, old(rows));
    }

    /** Afterwards nothing of the appointment is live, and every other row is as it was. */
    method ReleaseForAppointment(tenant: Tenant, appointment: int, now: Time)
      modifies this
      ensures rows == AppointmentReleased(old(rows), tenant, appointment, now)
      ensures OnlyReleases(rows, old(rows)) && (Guarded(old(rows)) ==> Guarded(rows))
      ensures forall i | 0 <= i < |rows| && rows[i].tenant == tenant && rows[i].appointment == Some(appointment) ::
        !rows[i].Live()
      ensures forall i | 0 <= i < |rows| && rows[i] != old(rows)[i] ::
        old(rows)[i].appointment == Some(appointment) && rows[i] == Release(old(rows)[i], now)
    {
      for i := 0 to |rows|
        invariant |rows| == |old(rows)|
        invariant forall j | 0 <= j < i :: rows[j] == AppointmentReleased(old(rows), tenant, appointment, now)[j]
        invariant forall j | i <= j < |rows| :: rows[j] == old(rows)[j]
      {
        if rows[i].tenant == tenant && rows[i].appointment == Some(appointment) && rows[i].Live() {
          rows := rows[i := Release(rows[i], now)];
        }
      }
      ReleasesKeepGuard(rows, old(rows));
    }

    /** Afterwards no live hold of the token is left, the appointment has a live booking for
        each, without expiry, and exactly the same time is free as before. */
    method ConvertHold(tenant: Tenant, token: string, appointment: int)
      modifies this
      ensures rows == HoldConverted(old(rows), tenant, token, appointment)
      ensures Guarded(old(rows)) ==> Guarded(rows)
      ensures forall i | 0 <= i < |rows| :: !IsHold(rows[i], tenant, token)
      ensures forall i | 0 <= i < |rows| && IsHold(old(rows)[i], tenant, token) ::
        && rows[i].Live() && rows[i].kind == Booking && rows[i].appointment == Some(appointment)
        && rows[i].expires == None && rows[i].span == old(rows)[i].span && rows[i].resource == old(rows)[i].resource
      ensures forall i | 0 <= i < |rows| && !IsHold(old(rows)[i], tenant, token) :: rows[i] == old(rows)[i]
      ensures forall resource, window :: Free(rows, resource, window) <==> Free(old(rows), resource, window)
    {
      for i := 0 to |rows|
        invariant |rows| == |old(rows)|
        invariant forall j | 0 <= j < i :: rows[j] == HoldConverted(old(rows), tenant, token, appointment)[j]
        invariant forall j | i <= j < |rows| :: rows[j] == old(rows)[j]
      {
        if IsHold(rows[i], tenant, token) {
          rows := rows[i := Converted(rows[i], appointment)];
        }
      }
      ReleasesKeepGuard(rows, old(rows));
      SameLiveSameFree(rows, old(rows));
    }
  }

  lemma SameLiveSameFree(after: Rows, before: Rows)
    requires |after| == |before|
    requires forall i | 0 <= i < |before| ::
      after[i].Live() == before[i].Live() && after[i].resource == before[i].resource && after[i].span == before[i].span
    ensures forall resource, window :: Free(after, resource, window) <==> Free(before, resource, window)
  {
  }

  /** The next insert of a reservation fits exactly when the longer list is reservable; and
      if it does not, the whole list is not. */
  lemma ReservableStep(rows: Rows, c: Claim, resources: seq<Resource>, i: nat)
    requires i < |resources| && Reservable(rows, resources[..i], c.window)
    ensures var now := rows + ClaimedAll(c, resources[..i]);
      var fits := c.window.start <= c.window.end && Free(now, resources[i], c.window);
      && (fits <==> Reservable(rows, resources[..i + 1], c.window))
      && (Reservable(rows, resources, c.window) ==> fits)
  {
    var now := rows + ClaimedAll(c, resources[..i]);
    forall j | 0 <= j < i ensures now[|rows| + j] == Claimed(c, resources[j]) {}
    assert forall j | 0 <= j < |rows| :: now[j] == rows[j];
    assert forall j | 0 <= j <= i :: resources[..i + 1][j] == resources[j];
    assert forall j | 0 <= j < i :: resources[..i][j] == resources[j];
    if c.window.start < c.window.end && exists j :: 0 <= j < i && resources[j] == resources[i] {
      var j :| 0 <= j < i && resources[j] == resources[i];
      assert !Free(now, resources[i], c.window) by {
        assert RangesMeet(now[|rows| + j].span, c.window);
      }
    }
  }
}
