/** The world that a search and a hold both see: weekly rules stand per calendar day, and each
    request sees the rules of the branch-local days its own range touches. */
module SearchWorld {
  import opened Basics
  import opened Reservations
  import opened Availability
  import opened Slots
  import opened Booking

  // ----- The world, day by day -----

  /** The opening times that the weekly rules give for each date, as instants. */
  type Schedule = map<int, seq<Interval>>

  /** A candidate of a role. The rules of a date are read in its own zone, if it has one. */
  datatype Person = Person(
    id: Resource, active: bool, elsewhere: bool, rules: Option<Schedule>, blocks: seq<Interval>)

  datatype World = World(branch: Schedule, closures: seq<Interval>, roles: seq<seq<Person>>)

  /** The branch's calendar: the local date of an instant. */
  type Calendar = Time -> int

  /** Dates never go back. */
  ghost predicate Ordered(date: Calendar) {
    forall u: Time, v: Time | u <= v :: date(u) <= date(v)
  }

  /** The opening times of a date begin and end on it, as a rule's do, which ends after it
      starts and before midnight. */
  ghost predicate OnItsDates(date: Calendar, rules: Schedule) {
    forall d, k, u | d in rules && 0 <= k < |rules[d]| && rules[d][k].start <= u <= rules[d][k].end :: date(u) == d
  }

  function On(rules: Schedule, d: int): seq<Interval> { if d in rules then rules[d] else [] }

  /** The opening times of the dates first to last. */
  function Openings(rules: Schedule, first: int, last: int): seq<Interval>
    decreases last - first
  {
    if last < first then [] else Openings(rules, first, last - 1) + On(rules, last)
  }

  lemma {:induction false} OpeningsCover(rules: Schedule, first: int, last: int, t: Time)
    ensures Covered(Openings(rules, first, last), t) <==> exists d :: first <= d <= last && Covered(On(rules, d), t)
    decreases last - first
  {
    if first <= last {
      var init := Openings(rules, first, last - 1);
      OpeningsCover(rules, first, last - 1, t);
      CoveredByEither(init, On(rules, last), t);
    }
  }

  lemma CoveredByEither(a: seq<Interval>, b: seq<Interval>, t: Time)
    ensures Covered(a + b, t) <==> Covered(a, t) || Covered(b, t)
  {
    if k :| 0 <= k < |a| && a[k].Has(t) {
      assert (a + b)[k].Has(t);
    }
    if k :| 0 <= k < |b| && b[k].Has(t) {
      assert (a + b)[|a| + k].Has(t);
    }
  }

  datatype Days = Days(first: int, last: int)
  {
    predicate Have(d: int) { first <= d <= last }
  }

  /** `_local_days` of the clamped range. */
  function DaysOf(date: Calendar, request: Request, s: Service, now: Time): Days {
    Days(date(Earliest(request, s, now)), date(Latest(request, s, now)))
  }

  function CandidateOn(p: Person, days: Days): Candidate {
    Candidate(p.id, p.active, p.elsewhere,
      if p.rules.Some? then Some(Openings(p.rules.value, days.first, days.last)) else None, p.blocks)
  }

  function RoleOn(ps: seq<Person>, days: Days): seq<Candidate> {
    if ps == [] then [] else RoleOn(ps[..|ps| - 1], days) + [CandidateOn(ps[|ps| - 1], days)]
  }

  function RolesOn(roles: seq<seq<Person>>, days: Days): seq<seq<Candidate>> {
    if roles == [] then [] else RolesOn(roles[..|roles| - 1], days) + [RoleOn(roles[|roles| - 1], days)]
  }

  function WorldOn(world: World, days: Days): Inputs {
    Inputs(Openings(world.branch, days.first, days.last), world.closures, RolesOn(world.roles, days), map[])
  }

  function Range(request: Request): Interval { Interval(request.rangeStart, request.rangeEnd) }

  /** The table, and who asks. */
  datatype Table = Table(rows: Rows, tenant: Tenant, resources: set<Resource>)

  /** What the engine is given for a request. */
  function InputsFor(date: Calendar, world: World, table: Table, request: Request, s: Service, now: Time): Inputs {
    Load(WorldOn(world, DaysOf(date, request, s, now)), table.rows, table.tenant, table.resources, Range(request), now)
  }

  /** Open throughout, and closed just before and just after. */
  ghost predicate Stretch(openings: seq<Interval>, w: Interval) {
    && w.start < w.end && (forall t | w.Has(t) :: Covered(openings, t))
    && !Covered(openings, w.start - 1) && !Covered(openings, w.end)
  }

  /** The engine offers t out of some stretch of the opening times. */
  ghost predicate OfferedOn(inputs: Inputs, request: Request, s: Service, now: Time, t: Time) {
    s.active && exists w :: Stretch(inputs.openings, w) && Offerable(request, inputs, s, now, w, t)
  }

  ghost predicate Offered(date: Calendar, world: World, table: Table, request: Request, s: Service, now: Time,
      t: Time)
  {
    OfferedOn(InputsFor(date, world, table, request, s, now), request, s, now, t)
  }

  // ----- The engine's windows are the stretches -----

  lemma WindowIsStretch(windows: seq<Interval>, openings: seq<Interval>, k: nat)
    requires Separated(windows) && forall t :: Covered(windows, t) <==> Covered(openings, t)
    requires k < |windows|
    ensures Stretch(openings, windows[k])
  {
    EndIsUncovered(windows, k);
    forall m | 0 <= m < |windows| ensures !windows[m].Has(windows[k].start - 1) {
      assert m < k ==> windows[m].end < windows[k].start;
      assert k < m ==> windows[k].end < windows[m].start;
    }
    forall t | windows[k].Has(t) ensures Covered(openings, t) {
      assert Covered(windows, t);
    }
  }

  lemma OneStretchPerInstant(openings: seq<Interval>, v: Interval, w: Interval, t: Time)
    requires Stretch(openings, v) && Stretch(openings, w) && v.Has(t) && w.Has(t)
    ensures v == w
  {
    assert v.Has(w.start - 1) ==> Covered(openings, w.start - 1);
    assert v.Has(w.end) ==> Covered(openings, w.end);
    assert w.Has(v.start - 1) ==> Covered(openings, v.start - 1);
    assert w.Has(v.end) ==> Covered(openings, v.end);
  }

  /** What compute_slots lists and resolve_slot finds is what is offered here. */
  lemma OfferedSomewhere(inputs: Inputs, request: Request, s: Service, now: Time, windows: seq<Interval>, t: Time)
    requires Separated(windows) && forall t :: Covered(windows, t) <==> Covered(inputs.openings, t)
    ensures OfferedOn(inputs, request, s, now, t) <==>
            s.active && OfferableSomewhere(request, inputs, s, now, windows, t)
  {
    forall k: nat | k < |windows| ensures Stretch(inputs.openings, windows[k]) {
      WindowIsStretch(windows, inputs.openings, k);
    }
    if w :| Stretch(inputs.openings, w) && Offerable(request, inputs, s, now, w, t) {
      assert w.Has(w.start) && Covered(windows, w.start);
      var k :| 0 <= k < |windows| && windows[k].Has(w.start);
      OneStretchPerInstant(inputs.openings, windows[k], w, w.start);
    }
  }

  // ----- A stretch lies on one date -----

  lemma NextInstantSameDate(date: Calendar, rules: Schedule, days: Days, u: Time)
    requires OnItsDates(date, rules) && Covered(Openings(rules, days.first, days.last), u)
    ensures date(u + 1) == date(u) && days.Have(date(u))
  {
    OpeningsCover(rules, days.first, days.last, u);
    var d :| days.first <= d <= days.last && Covered(On(rules, d), u);
    var k :| 0 <= k < |On(rules, d)| && On(rules, d)[k].Has(u);
    assert rules[d][k].start <= u <= rules[d][k].end && rules[d][k].start <= u + 1 <= rules[d][k].end;
  }

  /** Open without a break from u to v: the same date at both, v's own opening aside. */
  lemma {:induction false} SameDate(date: Calendar, rules: Schedule, days: Days, u: Time, v: Time)
    requires OnItsDates(date, rules) && u <= v
    requires forall t | u <= t < v :: Covered(Openings(rules, days.first, days.last), t)
    ensures date(v) == date(u)
    decreases v - u
  {
    if u < v {
      SameDate(date, rules, days, u, v - 1);
      NextInstantSameDate(date, rules, days, v - 1);
    }
  }

  lemma CoveredOnDate(date: Calendar, rules: Schedule, days: Days, u: Time)
    requires OnItsDates(date, rules)
    ensures Covered(Openings(rules, days.first, days.last), u) <==>
            days.Have(date(u)) && Covered(On(rules, date(u)), u)
  {
    OpeningsCover(rules, days.first, days.last, u);
    forall d | days.first <= d <= days.last && Covered(On(rules, d), u) ensures d == date(u) {
      var k :| 0 <= k < |On(rules, d)| && On(rules, d)[k].Has(u);
      assert rules[d][k].start <= u <= rules[d][k].end;
    }
  }

  /** Nothing of another date touches a stretch, so it is one for any days that have its date. */
  lemma StretchStays(date: Calendar, rules: Schedule, mine: Days, yours: Days, w: Interval, t: Time)
    requires OnItsDates(date, rules) && Stretch(Openings(rules, yours.first, yours.last), w)
    requires w.Has(t) && mine.Have(date(t))
    ensures Stretch(Openings(rules, mine.first, mine.last), w)
  {
    forall u | w.start <= u <= w.end ensures date(u) == date(t) {
      SameDate(date, rules, yours, w.start, u);
      SameDate(date, rules, yours, w.start, t);
    }
    forall u | w.Has(u) ensures Covered(Openings(rules, mine.first, mine.last), u) {
      CoveredOnDate(date, rules, yours, u);
      CoveredOnDate(date, rules, mine, u);
    }
    NextInstantOpen(date, rules, mine, yours, w.start - 1, t);
    CoveredOnDate(date, rules, mine, w.end);
    CoveredOnDate(date, rules, yours, w.end);
    CoveredOnDate(date, rules, yours, w.start);
  }

  lemma NextInstantOpen(date: Calendar, rules: Schedule, mine: Days, yours: Days, u: Time, t: Time)
    requires OnItsDates(date, rules) && date(u + 1) == date(t)
    requires yours.Have(date(t)) || Covered(Openings(rules, yours.first, yours.last), u + 1)
    requires !Covered(Openings(rules, yours.first, yours.last), u)
    ensures !Covered(Openings(rules, mine.first, mine.last), u)
  {
    CoveredOnDate(date, rules, yours, u + 1);
    CoveredOnDate(date, rules, yours, u);
    CoveredOnDate(date, rules, mine, u);
    if Covered(Openings(rules, mine.first, mine.last), u) {
      NextInstantSameDate(date, rules, mine, u);
    }
  }

  // ----- What two query windows show -----

  /** Every instant of the block that `mine` shows taken, `yours` shows taken. */
  ghost predicate ShowsNoMore(mine: seq<Interval>, yours: seq<Interval>, block: Interval) {
    forall t | block.Has(t) && Covered(mine, t) :: Covered(yours, t)
  }

  /** Anything in the block that the window `mine` meets, `yours` meets too. */
  ghost predicate MeetsNoMore(mine: Interval, yours: Interval, block: Interval) {
    forall p: Interval, t | block.Has(t) && p.Has(t) && Meets(p, mine) :: Meets(p, yours)
  }

  lemma PeriodsShowNoMore(periods: seq<Interval>, mine: Interval, yours: Interval, block: Interval)
    requires MeetsNoMore(mine, yours, block)
    ensures ShowsNoMore(Loaded(periods, mine), Loaded(periods, yours), block)
  {
    LoadedAre(periods, mine);
    LoadedAre(periods, yours);
    forall t | block.Has(t) && Covered(Loaded(periods, mine), t) ensures Covered(Loaded(periods, yours), t) {
      CoveredByMember(Loaded(periods, mine), t);
      CoveredByMember(Loaded(periods, yours), t);
      var p :| p in Loaded(periods, mine) && p.Has(t);
      assert Meets(p, yours) && p in Loaded(periods, yours);
    }
  }

  lemma BusyShowsNoMore(table: Table, id: Resource, mine: Interval, yours: Interval, now: Time, block: Interval)
    requires MeetsNoMore(mine, yours, block)
    ensures ShowsNoMore(BusySpans(table.rows, table.tenant, id, mine, now),
              BusySpans(table.rows, table.tenant, id, yours, now), block)
  {
    BusySpansAre(table.rows, table.tenant, id, mine, now);
    BusySpansAre(table.rows, table.tenant, id, yours, now);
    var a := BusySpans(table.rows, table.tenant, id, mine, now);
    var b := BusySpans(table.rows, table.tenant, id, yours, now);
    forall t | block.Has(t) && Covered(a, t) ensures Covered(b, t) {
      CoveredByMember(a, t);
      CoveredByMember(b, t);
      var p :| p in a && p.Has(t);
      assert Meets(p, mine) && Meets(p, yours);
      var i :| 0 <= i < |table.rows| && Busy(table.rows[i], table.tenant, id, mine, now) && table.rows[i].span == p;
      assert Busy(table.rows[i], table.tenant, id, yours, now) && p in b;
    }
  }
}
