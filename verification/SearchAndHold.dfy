/** From the search to the hold, on one world and one table: when does resolve_slot find a start
    time that the search offered? */
module SearchAndHold {
  import opened Basics
  import opened Reservations
  import opened Availability
  import opened Slots
  import opened Booking
  import opened SearchWorld
  import opened OfferCarries

  // ----- Offers that are not found -----

  lemma OneOpening(d: int, x: Interval, days: Days, u: Time)
    ensures Covered(Openings(map[d := [x]], days.first, days.last), u) <==> days.Have(d) && x.Has(u)
  {
    var rules := map[d := [x]];
    OpeningsCover(rules, days.first, days.last, u);
    assert On(rules, d) == [x];
    if x.Has(u) {
      assert On(rules, d)[0].Has(u);
    }
  }

  lemma OneOpeningIsStretch(d: int, x: Interval, days: Days)
    requires x.start < x.end && days.Have(d)
    ensures Stretch(Openings(map[d := [x]], days.first, days.last), x)
  {
    forall u ensures Covered(Openings(map[d := [x]], days.first, days.last), u) <==> x.Has(u) {
      OneOpening(d, x, days, u);
    }
  }

  lemma OneOpeningOnItsDate(date: Calendar, d: int, x: Interval)
    requires Ordered(date) && date(x.start) == d == date(x.end)
    ensures OnItsDates(date, map[d := [x]])
  {
  }

  /** A branch that is open for the appointment, and closed for a while beside it. */
  function ClosedBeside(d: int, x: Interval, closure: Interval): World { World(map[d := [x]], [closure], []) }

  lemma LoadedOne(period: Interval, window: Interval)
    ensures Loaded([period], window) == if Meets(period, window) then [period] else []
  {
    assert [period][..0] == [];
  }

  lemma ClosureHidesOffer(date: Calendar, request: Request, s: Service, now: Time, t: Time, closure: Interval)
    requires Validated(s) && Ordered(date) && CanBeOffered(date, request, s, now, t)
    requires closure.start < closure.end && ReservationWindow(s, t).Contains(closure)
    requires Meets(closure, Range(Resolving(request, s, t))) && !Meets(closure, Range(request))
    ensures var world := ClosedBeside(date(t), Interval(t, t + s.duration * MINUTE), closure);
      Sound(date, [], world) && !CarriesOver(date, world, Table([], 0, {}), request, s, now, t)
  {
    var x, table := Interval(t, t + s.duration * MINUTE), Table([], 0, {});
    var world := ClosedBeside(date(t), x, closure);
    var a := InputsFor(date, world, table, Resolving(request, s, t), s, now);
    var b := InputsFor(date, world, table, request, s, now);
    DatesInRange(date, request, s, now, t);
    OneOpeningOnItsDate(date, date(t), x);
    OneOpeningIsStretch(date(t), x, DaysOf(date, request, s, now));
    LoadedOne(closure, Range(request));
    LoadedOne(closure, Range(Resolving(request, s, t)));
    assert a.closures == [closure] && b.closures == [] && a.roles == [] && b.roles == [];
    assert [closure][0].Has(closure.start) && Covered(a.closures, closure.start);
    assert ReservationWindow(s, t).Has(closure.start);
    assert Offerable(request, b, s, now, x, t);
  }

  /** One resource, open at the block by the rules of date d in its zone. */
  function Practitioner(d: int, x: Interval): Person { Person(0, true, false, Some(map[d := [x]]), []) }

  lemma PractitionerShown(p: Person, days: Days, window: Interval)
    requires p.active && !p.elsewhere
    ensures LoadRoles(RolesOn([[p]], days), window) == [[Shown(p, days, window)]]
  {
    var c := CandidateOn(p, days);
    RolesOnIs([[p]], days);
    RoleOnIs([p], days);
    assert [p][0] == p && [[p]][0] == [p];
    assert RoleOn([p], days) == [c];
    assert RolesOn([[p]], days)[0] == [c];
    assert RolesOn([[p]], days) == [[c]];
    LoadRoleOfOne(c, window);
    LoadRolesLast([], [c], window);
    assert LoadRoles([], window) == [] && [] + [[c]] == [[c]];
  }

  lemma PickedOne(inputs: Inputs, c: Candidate, block: Interval, preferred: Option<Resource>)
    requires inputs.roles == [[c]]
    ensures Picked(inputs, 1, block, preferred).Some? <==> Usable(inputs, c, block)
  {
    assert [c][0] == c && [c][1..] == [];
    if preferred.Some? {
      assert Named([], preferred.value) == [];
      assert Named([c], preferred.value) == if c.id == preferred.value then [c] else [];
    }
    assert Preferring([c], preferred) == [c];
    assert FirstUsable(inputs, [], [], block) == None;
    assert Picked(inputs, 0, block, preferred) == Some([]);
  }

  /** Open only by a rule of date d, which the request has not. */
  lemma ShutElsewhere(world: World, table: Table, date: Calendar, request: Request, s: Service, now: Time, d: int,
      y: Interval, block: Interval)
    requires world.roles == [[Practitioner(d, y)]] && block.start < block.end
    requires !DaysOf(date, request, s, now).Have(d)
    ensures var a := InputsFor(date, world, table, request, s, now);
      |a.roles| == 1 && Picked(a, 1, block, request.preferred) == None
  {
    var a, days := InputsFor(date, world, table, request, s, now), DaysOf(date, request, s, now);
    var c := Shown(Practitioner(d, y), days, Range(request));
    PractitionerShown(Practitioner(d, y), days, Range(request));
    PickedOne(a, c, block, request.preferred);
    OneOpening(d, y, days, block.start);
    assert block.Has(block.start) && !Covered(c.own.value, block.start);
    assert !Usable(a, c, block);
  }

  lemma OpenElsewhere(world: World, date: Calendar, request: Request, s: Service, now: Time, d: int, x: Interval,
      y: Interval, block: Interval)
    requires world.roles == [[Practitioner(d, y)]] && world.closures == []
    requires date(x.start) == date(x.end) && world.branch == map[date(x.start) := [x]]
    requires x.Contains(block) && y.Contains(block)
    requires DaysOf(date, request, s, now).Have(d) && DaysOf(date, request, s, now).Have(date(x.start))
    ensures var b := InputsFor(date, world, Table([], 0, {}), request, s, now);
      |b.roles| == 1 && Picked(b, 1, block, request.preferred).Some?
  {
    var b, days := InputsFor(date, world, Table([], 0, {}), request, s, now), DaysOf(date, request, s, now);
    var c := Shown(Practitioner(d, y), days, Range(request));
    PractitionerShown(Practitioner(d, y), days, Range(request));
    PickedOne(b, c, block, request.preferred);
    forall u | block.Has(u) ensures Covered(b.openings, u) && Covered(c.own.value, u) {
      OneOpening(date(x.start), x, days, u);
      OneOpening(d, y, days, u);
    }
    assert Usable(b, c, block);
  }

  /** The branch open on its own date, the resource by the rules of a date that the search has
      and resolve_slot has not. */
  lemma ForeignDateHidesOffer(date: Calendar, zone: Calendar, request: Request, s: Service, now: Time, t: Time,
      x: Interval, y: Interval)
    requires Validated(s) && Ordered(date) && Ordered(zone) && CanBeOffered(date, request, s, now, t)
    requires x.Contains(ReservationWindow(s, t)) && y.Contains(ReservationWindow(s, t))
    requires date(x.start) == date(t) == date(x.end) && OnGrid(t, x.start, GridStep(request))
    requires zone(y.start) == zone(y.end) && DaysOf(date, request, s, now).Have(zone(y.start))
    requires !DaysOf(date, Resolving(request, s, t), s, now).Have(zone(y.start))
    ensures var world := World(map[date(t) := [x]], [], [[Practitioner(zone(y.start), y)]]);
      && Sound(date, [zone], world) && OnItsDates(zone, map[zone(y.start) := [y]])
      && !CarriesOver(date, world, Table([], 0, {}), request, s, now, t)
  {
    var table, block, d := Table([], 0, {}), ReservationWindow(s, t), zone(y.start);
    var world := World(map[date(t) := [x]], [], [[Practitioner(d, y)]]);
    var yours := DaysOf(date, request, s, now);
    var b := InputsFor(date, world, table, request, s, now);
    DatesInRange(date, request, s, now, t);
    OneOpeningOnItsDate(date, date(t), x);
    OneOpeningOnItsDate(zone, d, y);
    assert OnItsDates([zone][0], map[d := [y]]);
    OneOpeningIsStretch(date(t), x, yours);
    ShutElsewhere(world, table, date, Resolving(request, s, t), s, now, d, y, block);
    OpenElsewhere(world, date, request, s, now, d, x, y, block);
    assert Offerable(request, b, s, now, x, t);
  }

  lemma MoreZones(date: Calendar, zones: seq<Calendar>, k: nat, world: World)
    requires k < |zones| && Sound(date, [zones[k]], world)
    ensures Sound(date, zones, world)
  {
    forall rules | ReadSomewhere(date, [zones[k]], rules) ensures ReadSomewhere(date, zones, rules) {
      assert !OnItsDates(date, rules) ==> OnItsDates(zones[k], rules);
    }
  }

  // ----- The exact conditions -----

  /** A start time the search offers is found by resolve_slot, on every world with resources in
      these zones and every table, exactly when the search can never offer it, or
      - the range reaches a minute past the appointment wherever the service has a buffer, and
      - no zone has the block on one of its dates that the range touches and the appointment's
        own minute-window does not, if the block fits one date of the branch at all.
      Grid, notice, horizon and the branch's date carry over by themselves. */
  lemma WhenOfferIsFound(date: Calendar, zones: seq<Calendar>, request: Request, s: Service, now: Time, t: Time)
    requires Validated(s) && Ordered(date) && forall k | 0 <= k < |zones| :: Ordered(zones[k])
    ensures Found(date, zones, request, s, now, t) <==>
            (CanBeOffered(date, request, s, now, t) ==>
               && RangeSuffices(request, s, t)
               && (FitsOneDate(date, request, s, t) ==> ZonesSuffice(date, zones, request, s, now, t)))
  {
    if !CanBeOffered(date, request, s, now, t) {
      forall world, table | Sound(date, zones, world) ensures CarriesOver(date, world, table, request, s, now, t) {
        OfferedOnlyIfCan(date, world, table, request, s, now, t);
      }
    } else if !RangeSuffices(request, s, t) {
      NarrowRangeHides(date, zones, request, s, now, t);
    } else if FitsOneDate(date, request, s, t) && !ZonesSuffice(date, zones, request, s, now, t) {
      ForeignZoneHides(date, zones, request, s, now, t);
    } else {
      forall world, table | Sound(date, zones, world) ensures CarriesOver(date, world, table, request, s, now, t) {
        SoundOfferCarriesOver(date, zones, world, table, request, s, now, t);
      }
    }
  }

  /** With no zones but the branch's, the range decides. */
  lemma WhenOfferIsFoundAtHome(date: Calendar, request: Request, s: Service, now: Time, t: Time)
    requires Validated(s) && Ordered(date)
    ensures Found(date, [], request, s, now, t) <==>
            (CanBeOffered(date, request, s, now, t) ==> RangeSuffices(request, s, t))
  {
    WhenOfferIsFound(date, [], request, s, now, t);
  }

  lemma OfferedOnlyIfCan(date: Calendar, world: World, table: Table, request: Request, s: Service, now: Time, t: Time)
    requires Validated(s) && OnItsDates(date, world.branch)
    ensures Offered(date, world, table, request, s, now, t) ==> CanBeOffered(date, request, s, now, t)
  {
    var inputs := InputsFor(date, world, table, request, s, now);
    if w :| s.active && Stretch(inputs.openings, w) && Offerable(request, inputs, s, now, w, t) {
      OfferedCanBe(date, world, table, request, s, now, t, w);
    }
  }

  lemma NarrowRangeHides(date: Calendar, zones: seq<Calendar>, request: Request, s: Service, now: Time, t: Time)
    requires Validated(s) && Ordered(date) && CanBeOffered(date, request, s, now, t) && !RangeSuffices(request, s, t)
    ensures !Found(date, zones, request, s, now, t)
  {
    var before := s.bufferBefore > 0 && request.rangeStart > t - MINUTE;
    var closure := if before then Interval(t - MINUTE, request.rangeStart)
                   else Interval(request.rangeEnd, t + (s.duration + 1) * MINUTE);
    ClosureHidesOffer(date, request, s, now, t, closure);
    assert Sound(date, zones, ClosedBeside(date(t), Interval(t, t + s.duration * MINUTE), closure));
  }

  lemma ForeignZoneHides(date: Calendar, zones: seq<Calendar>, request: Request, s: Service, now: Time, t: Time)
    requires Validated(s) && Ordered(date) && forall k | 0 <= k < |zones| :: Ordered(zones[k])
    requires CanBeOffered(date, request, s, now, t) && FitsOneDate(date, request, s, t)
    requires !ZonesSuffice(date, zones, request, s, now, t)
    ensures !Found(date, zones, request, s, now, t)
  {
    var mine, yours := DaysOf(date, Resolving(request, s, t), s, now), DaysOf(date, request, s, now);
    var k :| 0 <= k < |zones| && !ZoneSuffices(zones[k], mine, yours, ReservationWindow(s, t));
    OneZoneHides(date, zones[k], request, s, now, t);
    MoreZones(date, zones, k, ServedElsewhere(date, zones[k], request, s, t));
  }

  /** The branch open from the grid point to the block's end, one resource for the block, on its
      date in the zone. */
  ghost function ServedElsewhere(date: Calendar, zone: Calendar, request: Request, s: Service, t: Time): World {
    var block := ReservationWindow(s, t);
    World(map[date(t) := [Interval(GridStart(request, s, t), block.end)]], [],
      [[Practitioner(zone(block.start), block)]])
  }

  lemma OneZoneHides(date: Calendar, zone: Calendar, request: Request, s: Service, now: Time, t: Time)
    requires Validated(s) && Ordered(date) && Ordered(zone)
    requires CanBeOffered(date, request, s, now, t) && FitsOneDate(date, request, s, t)
    requires !ZoneSuffices(zone, DaysOf(date, Resolving(request, s, t), s, now), DaysOf(date, request, s, now),
                           ReservationWindow(s, t))
    ensures Sound(date, [zone], ServedElsewhere(date, zone, request, s, t))
    ensures !CarriesOver(date, ServedElsewhere(date, zone, request, s, t), Table([], 0, {}), request, s, now, t)
  {
    var block := ReservationWindow(s, t);
    GridStartFits(request, s, t, 0);
    ForeignDateHidesOffer(date, zone, request, s, now, t, Interval(GridStart(request, s, t), block.end), block);
  }

  // ----- Three inputs -----

  const HOUR := 60 * MINUTE

  /** UTC dates, counted from a Sunday. */
  function UtcDate(u: Time): int { u / DAY }

  /** Dates in Tokyo, nine hours ahead. */
  function TokyoDate(u: Time): int { (u + 9 * HOUR) / DAY }

  lemma DatesAreOrdered()
    ensures Ordered(UtcDate) && Ordered(TokyoDate)
  {
  }

  /** A branch in UTC, open on Sunday from 09:00 to 20:00; one practitioner in Tokyo, working on
      Monday from 00:00 to 08:00, which is Sunday from 15:00 to 23:00 UTC; half an hour without
      buffers. A search from Sunday to Tuesday offers Sunday 16:00, which does not resolve. */
  lemma TokyoMondayIsLost(s: Service)
    requires Validated(s) && s.active && s.duration == 30 && s.bufferBefore == 0 && s.bufferAfter == 0
    requires s.minNotice == 0 && s.maxHorizonDays >= 2
    ensures var monday := map[1 := [Interval(15 * HOUR, 23 * HOUR)]];
      var world := World(map[0 := [Interval(9 * HOUR, 20 * HOUR)]], [], [[Person(0, true, false, Some(monday), [])]]);
      var request, t := Request(0, 2 * DAY, 15, 200, None), 16 * HOUR;
      && Sound(UtcDate, [TokyoDate], world) && OnItsDates(TokyoDate, monday) && RangeSuffices(request, s, t)
      && !CarriesOver(UtcDate, world, Table([], 0, {}), request, s, 0, t)
  {
    var request, t := Request(0, 2 * DAY, 15, 200, None), 16 * HOUR;
    var x, y := Interval(9 * HOUR, 20 * HOUR), Interval(15 * HOUR, 23 * HOUR);
    DatesAreOrdered();
    assert UtcDate(9 * HOUR) == 0 && UtcDate(20 * HOUR) == 0 && UtcDate(t) == 0 && UtcDate(2 * DAY) == 2;
    assert TokyoDate(y.start) == 1 && TokyoDate(y.end) == 1;
    ForeignDateHidesOffer(UtcDate, TokyoDate, request, s, 0, t, x, y);
    assert Practitioner(1, y) == Person(0, true, false, Some(map[1 := [y]]), []);
  }

  /** Half an hour with ten minutes of clean-up, searched until 16:30, when the branch closes for
      the clean-up's time: the search offers 16:00, which does not resolve. */
  lemma ClosingTimeIsLost(s: Service)
    requires Validated(s) && s.active && s.duration == 30 && s.bufferBefore == 0 && s.bufferAfter == 10
    requires s.minNotice == 0 && s.maxHorizonDays >= 1
    ensures var x, closure := Interval(16 * HOUR, 16 * HOUR + 30 * MINUTE),
                              Interval(16 * HOUR + 30 * MINUTE, 16 * HOUR + 40 * MINUTE);
      !CarriesOver(UtcDate, ClosedBeside(0, x, closure), Table([], 0, {}),
                   Request(0, 16 * HOUR + 30 * MINUTE, 15, 200, None), s, 0, 16 * HOUR)
  {
    DatesAreOrdered();
    ClosureHidesOffer(UtcDate, Request(0, 16 * HOUR + 30 * MINUTE, 15, 200, None), s, 0, 16 * HOUR,
      Interval(16 * HOUR + 30 * MINUTE, 16 * HOUR + 40 * MINUTE));
  }

  /** A consultation that needs a doctor and a room, the only room switched off, the branch open
      all day: 10:00 is offered, with the doctor alone, who can be reserved, so `HoldSlot` holds
      it, though the role of the room is served by nobody. */
  lemma HeldWithoutARoom(s: Service, windows: seq<Interval>)
    requires Validated(s) && s.active && s.duration == 30 && s.bufferBefore == 0 && s.bufferAfter == 0
    requires s.minNotice == 0 && s.maxHorizonDays >= 1
    requires Separated(windows) && forall u :: Covered(windows, u) <==> Covered([Interval(0, DAY)], u)
    ensures var doctor, room := Candidate(1, true, false, None, []), Candidate(2, false, false, None, []);
      var world := Inputs([Interval(0, DAY)], [], [[doctor], [room]], map[]);
      var t := 10 * HOUR;
      var inputs, block := Load(world, [], 0, {1, 2}, ResolveWindow(s, t), 0), ReservationWindow(s, t);
      && OfferableSomewhere(ResolveRequest(s, t, None), inputs, s, 0, windows, t)
      && Picked(inputs, |inputs.roles|, block, None) == Some([1]) && Reservable(Purged([], 0, [1], 0), [1], block)
      && !ServesRole(world, [1], 1)
  {
    var doctor, room := Candidate(1, true, false, None, []), Candidate(2, false, false, None, []);
    var day, t := Interval(0, DAY), 10 * HOUR;
    var world := Inputs([day], [], [[doctor], [room]], map[]);
    var request, block := ResolveRequest(s, t, None), ReservationWindow(s, t);
    var inputs := Load(world, [], 0, {1, 2}, ResolveWindow(s, t), 0);
    InactiveRoomVanishes(doctor, room, ResolveWindow(s, t));
    var c := Seen(doctor, ResolveWindow(s, t));
    assert inputs.roles == [[c]] && inputs.closures == [] && c.blocks == [];
    assert forall u | block.Has(u) :: [day][0].Has(u) && Covered(inputs.openings, u);
    assert BusyOf(inputs, 1) == [];
    assert Usable(inputs, c, block);
    PickedOne(inputs, c, block, None);
    PickedServes(inputs, 1, block, None);
    var ids := Picked(inputs, 1, block, None).value;
    assert Serves(inputs, 0, ids[0], block) && ids == [1];
    forall u ensures Covered([day], u) <==> day.Has(u) {
      assert day.Has(u) ==> [day][0].Has(u);
    }
    assert Stretch(inputs.openings, day);
    assert (t - 0) % MINUTE == 0;
    assert Offerable(request, inputs, s, 0, day, t);
    OfferedSomewhere(inputs, request, s, 0, windows, t);
  }
}
