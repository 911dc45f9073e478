/** What the exclusion constraint guarantees over every run of reservations, conversions
    and releases. */
module ReservationRuns {
  import opened Basics
  import opened Reservations

  datatype Step =
    | Reserve(claim: Claim, resources: seq<Resource>)
    | Purge(tenant: Tenant, resources: seq<Resource>, now: Time)
    | Drop(tenant: Tenant, token: string, now: Time)
    | Cancel(tenant: Tenant, appointment: int, now: Time)
    | Sweep(picked: set<nat>, now: Time)
    | Convert(tenant: Tenant, token: string, appointment: int)

  /** Bookings are claimed without an expiry, as every caller does. */
  predicate Proper(s: Step) {
    s.Reserve? && s.claim.kind == Booking ==> s.claim.expires == None
  }

  function Next(rows: Rows, s: Step): Rows {
    match s
    case Reserve(c, resources) =>
      if Reservable(rows, resources, c.window) then rows + ClaimedAll(c, resources) else rows
    case Purge(tenant, resources, now) => Purged(rows, tenant, resources, now)
    case Drop(tenant, token, now) => HoldReleased(rows, tenant, token, now)
    case Cancel(tenant, appointment, now) => AppointmentReleased(rows, tenant, appointment, now)
    case Sweep(picked, now) => Swept(rows, picked, now)
    case Convert(tenant, token, appointment) => HoldConverted(rows, tenant, token, appointment)
  }

  function Run(steps: seq<Step>): Rows {
    if steps == [] then [] else Next(Run(steps[..|steps| - 1]), steps[|steps| - 1])
  }

  /** A run is its statements one after the other: a claim adds its rows if all of it can be
      reserved, and nothing otherwise; each update is the repository's. */
  lemma OneStatementMore(steps: seq<Step>, s: Step, rows: Rows, after: Rows)
    requires rows == Run(steps) && after == Run(steps + [s])
    ensures s.Reserve? && Reservable(rows, s.resources, s.claim.window) ==>
              after == rows + ClaimedAll(s.claim, s.resources)
    ensures s.Reserve? && !Reservable(rows, s.resources, s.claim.window) ==> after == rows
    ensures s.Purge? ==> after == Purged(rows, s.tenant, s.resources, s.now)
    ensures s.Drop? ==> after == HoldReleased(rows, s.tenant, s.token, s.now)
    ensures s.Cancel? ==> after == AppointmentReleased(rows, s.tenant, s.appointment, s.now)
    ensures s.Sweep? ==> after == Swept(rows, s.picked, s.now)
    ensures s.Convert? ==> after == HoldConverted(rows, s.tenant, s.token, s.appointment)
  {
    assert (steps + [s])[..|steps|] == steps;
  }

  lemma UpdatesOnlyRelease(rows: Rows, s: Step)
    requires !s.Reserve?
    ensures OnlyReleases(Next(rows, s), rows)
  {
  }

  lemma ReserveKeepsGuard(rows: Rows, c: Claim, resources: seq<Resource>)
    requires Guarded(rows) && Reservable(rows, resources, c.window)
    ensures Guarded(rows + ClaimedAll(c, resources))
  {
    var now := rows + ClaimedAll(c, resources);
    forall i, j | 0 <= i < j < |now| && now[i].Live() && now[j].Live() && now[i].resource == now[j].resource
      ensures !RangesMeet(now[i].span, now[j].span)
    {
      if |rows| <= j {
        assert now[j] == Claimed(c, resources[j - |rows|]);
        if |rows| <= i {
          assert now[i] == Claimed(c, resources[i - |rows|]);
        } else {
          assert Free(rows, resources[j - |rows|], c.window);
        }
      }
    }
  }

  lemma StepKeeps(rows: Rows, s: Step)
    requires Guarded(rows)
    ensures Guarded(Next(rows, s))
    ensures BookingsStay(rows) && Proper(s) ==> BookingsStay(Next(rows, s))
  {
    if s.Reserve? {
      if Reservable(rows, s.resources, s.claim.window) {
        ReserveKeepsGuard(rows, s.claim, s.resources);
      }
    } else {
      UpdatesOnlyRelease(rows, s);
    }
  }

  lemma {:induction false} RunIsGuarded(steps: seq<Step>)
    ensures Guarded(Run(steps))
    ensures (forall i | 0 <= i < |steps| :: Proper(steps[i])) ==> BookingsStay(Run(steps))
  {
    if steps != [] {
      RunIsGuarded(steps[..|steps| - 1]);
      StepKeeps(Run(steps[..|steps| - 1]), steps[|steps| - 1]);
    }
  }

  // ----- Reserved time fits in the calendar -----

  /** How much of [from, to) a span covers. */
  function Clipped(span: Interval, from: Time, to: Time): nat {
    var lo := if span.start < from then from else span.start;
    var hi := if span.end < to then span.end else to;
    if lo < hi then hi - lo else 0
  }

  function ReservedTime(rows: Rows, resource: Resource, from: Time, to: Time): nat {
    if rows == [] then 0
    else
      var last := rows[|rows| - 1];
      ReservedTime(rows[..|rows| - 1], resource, from, to) +
      if last.Live() && last.resource == resource then Clipped(last.span, from, to) else 0
  }

  function Instants(span: Interval, from: Time, to: Time): set<Time> {
    set t | from <= t < to && span.Has(t)
  }

  predicate TakenAt(rows: Rows, resource: Resource, t: Time) {
    exists i :: 0 <= i < |rows| && rows[i].Live() && rows[i].resource == resource && rows[i].span.Has(t)
  }

  /** The instants of [from, to) at which the resource is taken. */
  function Taken(rows: Rows, resource: Resource, from: Time, to: Time): set<Time> {
    set t | from <= t < to && TakenAt(rows, resource, t)
  }

  lemma {:induction false} CountInstants(span: Interval, from: Time, to: Time)
    ensures |Instants(span, from, to)| == Clipped(span, from, to)
    decreases if from <= to then to - from else 0
  {
    var all := Instants(span, from, to);
    if from < to {
      CountInstants(span, from, to - 1);
      var fewer := Instants(span, from, to - 1);
      assert all == if span.Has(to - 1) then fewer + {to - 1} else fewer;
    } else {
      assert all == {};
    }
  }

  lemma TakenAtLast(rows: Rows, resource: Resource, t: Time)
    requires rows != []
    ensures var init, last := rows[..|rows| - 1], rows[|rows| - 1];
      TakenAt(rows, resource, t) <==>
        TakenAt(init, resource, t) || (last.Live() && last.resource == resource && last.span.Has(t))
  {
    var n := |rows| - 1;
    assert forall i | 0 <= i < n :: rows[..n][i] == rows[i];
  }

  function Added(row: Row, resource: Resource, from: Time, to: Time): set<Time> {
    if row.Live() && row.resource == resource then Instants(row.span, from, to) else {}
  }

  lemma TakenGrows(rows: Rows, resource: Resource, from: Time, to: Time)
    requires rows != []
    ensures var n := |rows| - 1;
      Taken(rows, resource, from, to) == Taken(rows[..n], resource, from, to) + Added(rows[n], resource, from, to)
  {
    forall t ensures TakenAt(rows, resource, t) <==>
      var last := rows[|rows| - 1];
      TakenAt(rows[..|rows| - 1], resource, t) || (last.Live() && last.resource == resource && last.span.Has(t))
    {
      TakenAtLast(rows, resource, t);
    }
  }

  /** The guard keeps the last row's instants apart from all the others. */
  lemma AddedIsNew(rows: Rows, resource: Resource, from: Time, to: Time)
    requires Guarded(rows) && rows != []
    ensures var n := |rows| - 1;
      Taken(rows[..n], resource, from, to) !! Added(rows[n], resource, from, to)
  {
    var n := |rows| - 1;
    forall t | t in Taken(rows[..n], resource, from, to) ensures t !in Added(rows[n], resource, from, to) {
      var i :| 0 <= i < n && rows[..n][i].Live() && rows[..n][i].resource == resource && rows[..n][i].span.Has(t);
      if rows[n].Live() && rows[n].resource == resource {
        assert !RangesMeet(rows[i].span, rows[n].span);
      }
    }
  }

  lemma DisjointSizes(a: set<Time>, b: set<Time>)
    requires a !! b
    ensures |a + b| == |a| + |b|
  {
  }

  lemma {:induction false} ReservedIsTaken(rows: Rows, resource: Resource, from: Time, to: Time)
    requires Guarded(rows)
    ensures ReservedTime(rows, resource, from, to) == |Taken(rows, resource, from, to)|
  {
    if rows == [] {
      assert Taken(rows, resource, from, to) == {};
    } else {
      var n := |rows| - 1;
      ReservedIsTaken(rows[..n], resource, from, to);
      TakenGrows(rows, resource, from, to);
      AddedIsNew(rows, resource, from, to);
      DisjointSizes(Taken(rows[..n], resource, from, to), Added(rows[n], resource, from, to));
      CountInstants(rows[n].span, from, to);
    }
  }

  /** After any run, the live reserved time of a resource inside a window never exceeds the
      window's length. */
  lemma CalendarNeverOverflows(steps: seq<Step>, resource: Resource, from: Time, to: Time)
    requires from <= to
    ensures ReservedTime(Run(steps), resource, from, to) <= to - from
  {
    RunIsGuarded(steps);
    ReservedIsTaken(Run(steps), resource, from, to);
    var window := Interval(from, to);
    CountInstants(window, from, to);
    SubsetSize(Taken(Run(steps), resource, from, to), Instants(window, from, to));
  }

  // ----- Rebooking -----

  /** A window is admitted exactly when the resource's live reserved time inside it is zero. */
  lemma WhenWindowIsAdmitted(rows: Rows, resource: Resource, window: Interval)
    requires Guarded(rows) && window.start <= window.end
    ensures Reservable(rows, [resource], window) <==> ReservedTime(rows, resource, window.start, window.end) == 0
  {
    ReservedIsTaken(rows, resource, window.start, window.end);
    var taken := Taken(rows, resource, window.start, window.end);
    assert Reservable(rows, [resource], window) <==> Free(rows, [resource][0], window);
    if Free(rows, resource, window) {
      forall t ensures t !in taken {
        assert forall i | 0 <= i < |rows| && rows[i].Live() && rows[i].resource == resource ::
          !RangesMeet(rows[i].span, window);
      }
      assert taken == {};
    } else {
      var i :| 0 <= i < |rows| && rows[i].Live() && rows[i].resource == resource && RangesMeet(rows[i].span, window);
      var t := if rows[i].span.start < window.start then window.start else rows[i].span.start;
      assert rows[i].span.Has(t) && t in taken;
      assert taken != {} && |taken| > 0;
    }
  }

  /** A window that touches no live reservation but at its ends is admitted. */
  lemma BackToBackIsAdmitted(rows: Rows, resource: Resource, window: Interval)
    requires window.start <= window.end
    requires forall i | 0 <= i < |rows| && rows[i].Live() && rows[i].resource == resource ::
      rows[i].span.end <= window.start || window.end <= rows[i].span.start
    ensures Reservable(rows, [resource], window)
  {
  }

  /** Once released, exactly the time a row held can be reserved again. */
  lemma ReleasedSlotIsFree(rows: Rows, after: Rows, i: nat)
    requires Guarded(rows) && OnlyReleases(after, rows)
    requires i < |rows| && rows[i].Live() && !after[i].Live()
    ensures Reservable(after, [rows[i].resource], rows[i].span)
  {
    assert Free(after, rows[i].resource, rows[i].span);
  }

  /** Cancelling an appointment gives back all of it. */
  lemma CancelledAppointmentCanBeRebooked(rows: Rows, tenant: Tenant, appointment: int, now: Time, i: nat)
    requires Guarded(rows) && i < |rows| && rows[i].Live()
    requires rows[i].tenant == tenant && rows[i].appointment == Some(appointment)
    ensures Reservable(AppointmentReleased(rows, tenant, appointment, now), [rows[i].resource], rows[i].span)
  {
    UpdatesOnlyRelease(rows, Cancel(tenant, appointment, now));
    ReleasedSlotIsFree(rows, AppointmentReleased(rows, tenant, appointment, now), i);
  }

  /** Converting a hold never opens a gap: what could be reserved before it can be reserved
      after it, and nothing more. */
  lemma ConversionOpensNothing(rows: Rows, tenant: Tenant, token: string, appointment: int,
      resources: seq<Resource>, window: Interval)
    ensures Reservable(HoldConverted(rows, tenant, token, appointment), resources, window)
       <==> Reservable(rows, resources, window)
  {
    var after := HoldConverted(rows, tenant, token, appointment);
    assert forall i | 0 <= i < |rows| ::
      after[i].Live() == rows[i].Live() && after[i].resource == rows[i].resource && after[i].span == rows[i].span;
    assert forall resource :: Free(after, resource, window) <==> Free(rows, resource, window);
  }

  /** Of two claims on one resource whose times meet, at most one is ever live. */
  lemma NoDoubleBooking(steps: seq<Step>, i: nat, j: nat, t: Time)
    requires i < j < |Run(steps)| && Run(steps)[i].resource == Run(steps)[j].resource
    requires Run(steps)[i].span.Has(t) && Run(steps)[j].span.Has(t)
    ensures !(Run(steps)[i].Live() && Run(steps)[j].Live())
  {
    RunIsGuarded(steps);
  }

  /** The constraint and the engine's `Interval.overlaps` differ on proper ranges exactly
      when one of them is empty and lies strictly inside the other. */
  lemma WhenEngineAndConstraintDiffer(a: Interval, b: Interval)
    requires a.start <= a.end && b.start <= b.end
    ensures RangesMeet(a, b) != a.Overlaps(b) <==>
            (a.start == a.end && b.start < a.start < b.end) || (b.start == b.end && a.start < b.start < a.end)
  {
  }
}
