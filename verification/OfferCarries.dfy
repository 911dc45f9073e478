/** What the search offers, resolve_slot offers too: where the two requests' windows and dates
    show no less of the block, every candidate and the whole pick carry over. */
module OfferCarries {
  import opened Basics
  import opened Reservations
  import opened Availability
  import opened Slots
  import opened Booking
  import opened SearchWorld

  // ----- Twins: one candidate as two requests see it -----

  /** Usable as `b` sees it, so usable as `a` sees it. */
  ghost predicate Follows(a: Inputs, b: Inputs, c: Candidate, d: Candidate, block: Interval) {
    c.id == d.id && (Usable(b, d, block) ==> Usable(a, c, block))
  }

  ghost predicate RoleFollows(a: Inputs, b: Inputs, cs: seq<Candidate>, ds: seq<Candidate>, block: Interval) {
    |cs| == |ds| && forall k | 0 <= k < |cs| :: Follows(a, b, cs[k], ds[k], block)
  }

  ghost predicate RolesFollow(a: Inputs, b: Inputs, css: seq<seq<Candidate>>, dss: seq<seq<Candidate>>,
      block: Interval)
  {
    |css| == |dss| && forall r | 0 <= r < |css| :: RoleFollows(a, b, css[r], dss[r], block)
  }

  /** As a request sees the person. */
  function Shown(p: Person, days: Days, window: Interval): Candidate { Seen(CandidateOn(p, days), window) }

  ghost predicate PersonFollows(a: Inputs, b: Inputs, p: Person, mine: Days, yours: Days, w: Interval, v: Interval,
      block: Interval)
  {
    Follows(a, b, Shown(p, mine, w), Shown(p, yours, v), block)
  }

  lemma {:induction false} LoadedRoleFollows(a: Inputs, b: Inputs, ps: seq<Person>, mine: Days, yours: Days,
      w: Interval, v: Interval, block: Interval)
    requires forall k | 0 <= k < |ps| :: PersonFollows(a, b, ps[k], mine, yours, w, v, block)
    ensures RoleFollows(a, b, LoadRole(RoleOn(ps, mine), w), LoadRole(RoleOn(ps, yours), v), block)
  {
    if ps != [] {
      var n := |ps| - 1;
      LoadedRoleFollows(a, b, ps[..n], mine, yours, w, v, block);
      LoadRoleLast(RoleOn(ps[..n], mine), CandidateOn(ps[n], mine), w);
      LoadRoleLast(RoleOn(ps[..n], yours), CandidateOn(ps[n], yours), v);
      assert PersonFollows(a, b, ps[n], mine, yours, w, v, block);
    }
  }

  lemma {:induction false} LoadedRolesFollow(a: Inputs, b: Inputs, roles: seq<seq<Person>>, mine: Days, yours: Days,
      w: Interval, v: Interval, block: Interval)
    requires forall r, k | 0 <= r < |roles| && 0 <= k < |roles[r]| ::
      PersonFollows(a, b, roles[r][k], mine, yours, w, v, block)
    ensures RolesFollow(a, b, LoadRoles(RolesOn(roles, mine), w), LoadRoles(RolesOn(roles, yours), v), block)
  {
    if roles != [] {
      var n := |roles| - 1;
      LoadedRolesFollow(a, b, roles[..n], mine, yours, w, v, block);
      LoadedRoleFollows(a, b, roles[n], mine, yours, w, v, block);
      LoadRolesLast(RolesOn(roles[..n], mine), RoleOn(roles[n], mine), w);
      LoadRolesLast(RolesOn(roles[..n], yours), RoleOn(roles[n], yours), v);
    }
  }

  // ----- With roles apart, one usable candidate per role is enough -----

  predicate NoneShared(a: seq<Candidate>, b: seq<Candidate>) {
    forall k, k' | 0 <= k < |a| && 0 <= k' < |b| :: a[k].id != b[k'].id
  }

  predicate RolesApart(roles: seq<seq<Candidate>>) {
    forall r, r' | 0 <= r < r' < |roles| :: NoneShared(roles[r], roles[r'])
  }

  ghost predicate Fills(inputs: Inputs, r: nat, block: Interval, preferred: Option<Resource>)
    requires r < |inputs.roles|
  {
    exists c :: c in Preferring(inputs.roles[r], preferred) && Usable(inputs, c, block)
  }

  lemma ChosenAreElsewhere(inputs: Inputs, n: nat, block: Interval, preferred: Option<Resource>, c: Candidate)
    requires RolesApart(inputs.roles) && n < |inputs.roles| && c in inputs.roles[n]
    requires Picked(inputs, n, block, preferred).Some?
    ensures c.id !in Picked(inputs, n, block, preferred).value
  {
    PickedServes(inputs, n, block, preferred);
    var chosen := Picked(inputs, n, block, preferred).value;
    var k :| 0 <= k < |inputs.roles[n]| && inputs.roles[n][k] == c;
    forall r | 0 <= r < n ensures chosen[r] != c.id {
      assert Serves(inputs, r, chosen[r], block);
      var d :| d in inputs.roles[r] && d.id == chosen[r] && Usable(inputs, d, block);
      var m :| 0 <= m < |inputs.roles[r]| && inputs.roles[r][m] == d;
      assert NoneShared(inputs.roles[r], inputs.roles[n]);
      assert inputs.roles[r][m].id != inputs.roles[n][k].id;
    }
  }

  lemma PickedIffLastFilled(inputs: Inputs, n: nat, block: Interval, preferred: Option<Resource>)
    requires RolesApart(inputs.roles) && n < |inputs.roles| && Picked(inputs, n, block, preferred).Some?
    ensures Picked(inputs, n + 1, block, preferred).Some? <==> Fills(inputs, n, block, preferred)
  {
    var chosen := Picked(inputs, n, block, preferred).value;
    var cs := Preferring(inputs.roles[n], preferred);
    FirstUsableIsUsable(inputs, cs, chosen, block);
    PreferringMembers(inputs.roles[n], preferred);
    forall c | c in cs ensures c.id !in chosen {
      ChosenAreElsewhere(inputs, n, block, preferred, c);
    }
  }

  ghost predicate FilledUpTo(inputs: Inputs, n: nat, block: Interval, preferred: Option<Resource>)
    requires n <= |inputs.roles|
  {
    forall r: nat | r < n :: Fills(inputs, r, block, preferred)
  }

  /** What goes on exactly as long as each in turn allows it, has gone on when all have. */
  lemma {:induction false} OneByOne(goesOn: nat -> bool, allows: nat -> bool, n: nat)
    requires goesOn(0) && forall m: nat | m < n :: goesOn(m + 1) <==> goesOn(m) && allows(m)
    ensures goesOn(n) <==> forall m: nat | m < n :: allows(m)
  {
    if n > 0 {
      OneByOne(goesOn, allows, n - 1);
      assert goesOn((n - 1) + 1) <==> goesOn(n - 1) && allows(n - 1);
    }
  }

  lemma PickedIffFilled(inputs: Inputs, n: nat, block: Interval, preferred: Option<Resource>)
    requires RolesApart(inputs.roles) && n <= |inputs.roles|
    ensures Picked(inputs, n, block, preferred).Some? <==> FilledUpTo(inputs, n, block, preferred)
  {
    var picks := (m: nat) => m <= |inputs.roles| && Picked(inputs, m, block, preferred).Some?;
    var fills := (m: nat) => m < |inputs.roles| && Fills(inputs, m, block, preferred);
    forall m: nat | m < n ensures picks(m + 1) <==> picks(m) && fills(m) {
      PickedIffOneMore(inputs, m, block, preferred);
    }
    OneByOne(picks, fills, n);
    assert forall m: nat | m < n :: fills(m) <==> Fills(inputs, m, block, preferred);
  }

  lemma PickedIffOneMore(inputs: Inputs, n: nat, block: Interval, preferred: Option<Resource>)
    requires RolesApart(inputs.roles) && n < |inputs.roles|
    ensures Picked(inputs, n + 1, block, preferred).Some? <==>
            Picked(inputs, n, block, preferred).Some? && Fills(inputs, n, block, preferred)
  {
    if Picked(inputs, n, block, preferred).Some? {
      PickedIffLastFilled(inputs, n, block, preferred);
    } else {
      NoneStays(inputs, n, block, preferred);
    }
  }

  lemma NoneStays(inputs: Inputs, n: nat, block: Interval, preferred: Option<Resource>)
    requires n < |inputs.roles| && Picked(inputs, n, block, preferred) == None
    ensures Picked(inputs, n + 1, block, preferred) == None
  {
  }

  /** Where two roles share a resource the greedy pick can fail though another would do. */
  lemma GreedyMissesAPick(inputs: Inputs, c: Candidate, d: Candidate, block: Interval)
    requires inputs.roles == [[c, d], [c]] && c.id != d.id && Usable(inputs, c, block) && Usable(inputs, d, block)
    ensures Picked(inputs, 2, block, None) == None
    ensures Serves(inputs, 0, d.id, block) && Serves(inputs, 1, c.id, block)
  {
    PickStep(inputs, 0, block, None, []);
    assert FirstUsable(inputs, inputs.roles[0], [], block) == Some(c.id);
    PickStep(inputs, 1, block, None, [] + [c.id]);
    assert [c][1..] == [] && FirstUsable(inputs, inputs.roles[1], [] + [c.id], block) == None;
    assert d == inputs.roles[0][1] && c == inputs.roles[1][0];
  }

  // ----- The greedy pick follows, roles apart or not -----

  /** The resource of that id is usable; where ids are consistent it does not matter in which role. */
  ghost predicate Able(inputs: Inputs, id: Resource, block: Interval) {
    exists r, k :: 0 <= r < |inputs.roles| && 0 <= k < |inputs.roles[r]| &&
      inputs.roles[r][k].id == id && Usable(inputs, inputs.roles[r][k], block)
  }

  lemma AbleIsUsable(inputs: Inputs, r: nat, c: Candidate, block: Interval)
    requires Consistent(inputs) && r < |inputs.roles| && c in inputs.roles[r]
    ensures Able(inputs, c.id, block) <==> Usable(inputs, c, block)
  {
    var k :| 0 <= k < |inputs.roles[r]| && inputs.roles[r][k] == c;
  }

  lemma PreferredAreAble(inputs: Inputs, r: nat, block: Interval, preferred: Option<Resource>)
    requires Consistent(inputs) && r < |inputs.roles|
    ensures var cs := Preferring(inputs.roles[r], preferred);
      forall k | 0 <= k < |cs| :: Able(inputs, cs[k].id, block) <==> Usable(inputs, cs[k], block)
  {
    var cs := Preferring(inputs.roles[r], preferred);
    PreferringMembers(inputs.roles[r], preferred);
    forall k | 0 <= k < |cs| ensures Able(inputs, cs[k].id, block) <==> Usable(inputs, cs[k], block) {
      assert cs[k] in cs;
      AbleIsUsable(inputs, r, cs[k], block);
    }
  }

  /** Of the resources the search could use, `mine` has taken none that `yours` has not. */
  ghost predicate TakesNoMore(b: Inputs, mine: seq<Resource>, yours: seq<Resource>, block: Interval) {
    forall id | id in mine && Able(b, id, block) :: id in yours
  }

  lemma {:induction false} NamedFollows(a: Inputs, b: Inputs, cs: seq<Candidate>, ds: seq<Candidate>, id: Resource,
      block: Interval)
    requires RoleFollows(a, b, cs, ds, block)
    ensures RoleFollows(a, b, Named(cs, id), Named(ds, id), block)
  {
    if cs != [] {
      assert Follows(a, b, cs[0], ds[0], block);
      NamedFollows(a, b, cs[1..], ds[1..], id, block);
    }
  }

  lemma PreferringFollows(a: Inputs, b: Inputs, cs: seq<Candidate>, ds: seq<Candidate>, preferred: Option<Resource>,
      block: Interval)
    requires RoleFollows(a, b, cs, ds, block)
    ensures RoleFollows(a, b, Preferring(cs, preferred), Preferring(ds, preferred), block)
  {
    if preferred.Some? {
      NamedFollows(a, b, cs, ds, preferred.value, block);
    }
  }

  lemma {:induction false} FirstFollows(a: Inputs, b: Inputs, cs: seq<Candidate>, ds: seq<Candidate>,
      mine: seq<Resource>, yours: seq<Resource>, block: Interval)
    requires RoleFollows(a, b, cs, ds, block) && TakesNoMore(b, mine, yours, block)
    requires forall k | 0 <= k < |ds| :: Able(b, ds[k].id, block) <==> Usable(b, ds[k], block)
    requires FirstUsable(b, ds, yours, block).Some?
    ensures FirstUsable(a, cs, mine, block).Some?
    ensures TakesNoMore(b, mine + [FirstUsable(a, cs, mine, block).value],
              yours + [FirstUsable(b, ds, yours, block).value], block)
  {
    assert Follows(a, b, cs[0], ds[0], block);
    var mineFirst := cs[0].id !in mine && Usable(a, cs[0], block);
    var yoursFirst := ds[0].id !in yours && Usable(b, ds[0], block);
    if !mineFirst && !yoursFirst {
      FirstFollows(a, b, cs[1..], ds[1..], mine, yours, block);
    }
  }

  lemma RolePickFollows(a: Inputs, b: Inputs, r: nat, mine: seq<Resource>, yours: seq<Resource>, block: Interval,
      preferred: Option<Resource>)
    requires RolesFollow(a, b, a.roles, b.roles, block) && Consistent(b) && r < |b.roles|
    requires TakesNoMore(b, mine, yours, block)
    requires FirstUsable(b, Preferring(b.roles[r], preferred), yours, block).Some?
    ensures var first, wanted := FirstUsable(a, Preferring(a.roles[r], preferred), mine, block),
                                 FirstUsable(b, Preferring(b.roles[r], preferred), yours, block);
      first.Some? && TakesNoMore(b, mine + [first.value], yours + [wanted.value], block)
  {
    assert RoleFollows(a, b, a.roles[r], b.roles[r], block);
    PreferringFollows(a, b, a.roles[r], b.roles[r], preferred, block);
    PreferredAreAble(b, r, block, preferred);
    FirstFollows(a, b, Preferring(a.roles[r], preferred), Preferring(b.roles[r], preferred), mine, yours, block);
  }

  /** So resolve_slot's pick succeeds where the search's did, though it may pick others. */
  lemma {:induction false} PickedFollows(a: Inputs, b: Inputs, n: nat, block: Interval, preferred: Option<Resource>)
    requires RolesFollow(a, b, a.roles, b.roles, block) && Consistent(b)
    requires n <= |b.roles| && Picked(b, n, block, preferred).Some?
    ensures Picked(a, n, block, preferred).Some?
    ensures TakesNoMore(b, Picked(a, n, block, preferred).value, Picked(b, n, block, preferred).value, block)
  {
    if n > 0 {
      PickedFollows(a, b, n - 1, block, preferred);
      var mine, yours := Picked(a, n - 1, block, preferred).value, Picked(b, n - 1, block, preferred).value;
      PickStep(b, n - 1, block, preferred, yours);
      RolePickFollows(a, b, n - 1, mine, yours, block, preferred);
      PickStep(a, n - 1, block, preferred, mine);
    }
  }

  // ----- From the search to resolve_slot -----

  lemma CoarseGridIsFine(request: Request, t: Time, anchor: Time)
    requires OnGrid(t, anchor, GridStep(request))
    ensures OnGrid(t, anchor, MINUTE)
  {
    var step, x := GridStep(request), t - anchor;
    var g := if request.granularity >= 1 then request.granularity else 1;
    assert step == g * MINUTE && x == step * (x / step) + x % step;
    assert x == MINUTE * (g * (x / step));
    ModUnique(x, g * (x / step), 0, MINUTE);
  }

  const MAX_DURATION_MINUTES := 1440

  predicate Validated(s: Service) { ProperService(s) && s.duration <= MAX_DURATION_MINUTES }

  /** Any service of one minute to a day, with any buffers. */
  lemma WhoIsValidated(s: Service)
    ensures Validated(s) <==> 1 <= s.duration <= 24 * 60 && s.bufferBefore >= 0 && s.bufferAfter >= 0
  {
  }

  /** A resource is the same in every role that has it. */
  predicate SamePeople(roles: seq<seq<Person>>) {
    forall r, r', k, k' | 0 <= r < |roles| && 0 <= r' < |roles| && 0 <= k < |roles[r]| && 0 <= k' < |roles[r']| ::
      roles[r][k].id == roles[r'][k'].id ==> roles[r][k] == roles[r'][k']
  }

  lemma {:induction false} RoleOnIs(ps: seq<Person>, days: Days)
    ensures |RoleOn(ps, days)| == |ps| && forall k | 0 <= k < |ps| :: RoleOn(ps, days)[k] == CandidateOn(ps[k], days)
  {
    if ps != [] {
      RoleOnIs(ps[..|ps| - 1], days);
    }
  }

  lemma {:induction false} RolesOnIs(roles: seq<seq<Person>>, days: Days)
    ensures |RolesOn(roles, days)| == |roles|
    ensures forall r | 0 <= r < |roles| :: RolesOn(roles, days)[r] == RoleOn(roles[r], days)
  {
    if roles != [] {
      RolesOnIs(roles[..|roles| - 1], days);
    }
  }

  lemma PeopleAreConsistent(world: World, days: Days)
    requires SamePeople(world.roles)
    ensures Consistent(WorldOn(world, days))
  {
    var roles := RolesOn(world.roles, days);
    RolesOnIs(world.roles, days);
    forall r | 0 <= r < |roles|
      ensures |roles[r]| == |world.roles[r]|
      ensures forall k | 0 <= k < |roles[r]| :: roles[r][k] == CandidateOn(world.roles[r][k], days)
    {
      RoleOnIs(world.roles[r], days);
    }
    assert WorldOn(world, days).roles == roles;
  }

  /** Rules read in the branch's zone or in one of `zones`; a resource may fill several roles. */
  ghost predicate Sound(date: Calendar, zones: seq<Calendar>, world: World) {
    && OnItsDates(date, world.branch) && SamePeople(world.roles)
    && forall r, k | 0 <= r < |world.roles| && 0 <= k < |world.roles[r]| && world.roles[r][k].rules.Some? ::
         ReadSomewhere(date, zones, world.roles[r][k].rules.value)
  }

  ghost predicate ReadSomewhere(date: Calendar, zones: seq<Calendar>, rules: Schedule) {
    OnItsDates(date, rules) || exists k :: 0 <= k < |zones| && OnItsDates(zones[k], rules)
  }

  /** The appointment lies in the clamped range and on one date of the branch. */
  ghost predicate CanBeOffered(date: Calendar, request: Request, s: Service, now: Time, t: Time) {
    && s.active && Earliest(request, s, now) <= t && t + s.duration * MINUTE <= Latest(request, s, now)
    && date(t) == date(t + s.duration * MINUTE)
  }

  /** The search's range reaches a minute past the appointment wherever there is a buffer. */
  predicate RangeSuffices(request: Request, s: Service, t: Time) {
    && (s.bufferBefore > 0 ==> request.rangeStart <= t - MINUTE)
    && (s.bufferAfter > 0 ==> t + (s.duration + 1) * MINUTE <= request.rangeEnd)
  }

  function Resolving(request: Request, s: Service, t: Time): Request { ResolveRequest(s, t, request.preferred) }

  lemma OfferedCanBe(date: Calendar, world: World, table: Table, request: Request, s: Service, now: Time, t: Time,
      w: Interval)
    requires Validated(s) && OnItsDates(date, world.branch) && s.active
    requires var inputs := InputsFor(date, world, table, request, s, now);
      Stretch(inputs.openings, w) && Offerable(request, inputs, s, now, w, t)
    ensures CanBeOffered(date, request, s, now, t) && w.Has(t)
  {
    var inputs, days := InputsFor(date, world, table, request, s, now), DaysOf(date, request, s, now);
    InStretch(request, inputs, s, now, t, w);
    assert inputs.openings == Openings(world.branch, days.first, days.last);
    SameDate(date, world.branch, days, t, t + s.duration * MINUTE);
  }

  lemma InStretch(request: Request, inputs: Inputs, s: Service, now: Time, t: Time, w: Interval)
    requires ProperService(s) && Stretch(inputs.openings, w) && Offerable(request, inputs, s, now, w, t)
    ensures Earliest(request, s, now) <= t && t + s.duration * MINUTE <= Latest(request, s, now) && w.Has(t)
    ensures forall u | t <= u < t + s.duration * MINUTE :: Covered(inputs.openings, u)
  {
    assert t + s.duration * MINUTE <= w.end;
    assert forall u | t <= u < t + s.duration * MINUTE :: w.Has(u);
  }

  lemma DatesInRange(date: Calendar, request: Request, s: Service, now: Time, t: Time)
    requires Validated(s) && Ordered(date) && CanBeOffered(date, request, s, now, t)
    ensures DaysOf(date, request, s, now).Have(date(t))
    ensures CanBeOffered(date, Resolving(request, s, t), s, now, t)
    ensures DaysOf(date, Resolving(request, s, t), s, now).Have(date(t))
  {
    var resolving := Resolving(request, s, t);
    assert Earliest(resolving, s, now) <= t && t + s.duration * MINUTE <= Latest(resolving, s, now);
    assert date(Earliest(request, s, now)) <= date(t) <= date(Latest(request, s, now));
    assert date(Earliest(resolving, s, now)) <= date(t) <= date(Latest(resolving, s, now));
  }

  /** A person whose rules the search sees open throughout the block is seen so by resolve_slot. */
  ghost predicate RulesCarry(rules: Option<Schedule>, mine: Days, yours: Days, block: Interval) {
    rules.Some? && (forall u | block.Has(u) :: Covered(Openings(rules.value, yours.first, yours.last), u)) ==>
      forall u | block.Has(u) :: Covered(Openings(rules.value, mine.first, mine.last), u)
  }

  lemma PersonCarriesOver(a: Inputs, b: Inputs, table: Table, p: Person, mine: Days, yours: Days, w: Interval,
      v: Interval, now: Time, block: Interval)
    requires MeetsNoMore(w, v, block) && RulesCarry(p.rules, mine, yours, block)
    requires a.busy == BusyIntervals(table.rows, table.tenant, table.resources, w, now)
    requires b.busy == BusyIntervals(table.rows, table.tenant, table.resources, v, now)
    requires forall u | block.Has(u) && Covered(b.openings, u) :: Covered(a.openings, u)
    ensures PersonFollows(a, b, p, mine, yours, w, v, block)
  {
    PeriodsShowNoMore(p.blocks, w, v, block);
    BusyShowsNoMore(table, p.id, w, v, now, block);
    assert BusyOf(a, p.id) ==
      if p.id in table.resources then BusySpans(table.rows, table.tenant, p.id, w, now) else [];
    assert BusyOf(b, p.id) ==
      if p.id in table.resources then BusySpans(table.rows, table.tenant, p.id, v, now) else [];
  }

  lemma ResolvingMeetsNoMore(request: Request, s: Service, t: Time)
    requires ProperService(s) && RangeSuffices(request, s, t)
    requires request.rangeStart <= t && t + s.duration * MINUTE <= request.rangeEnd
    ensures MeetsNoMore(Range(Resolving(request, s, t)), Range(request), ReservationWindow(s, t))
  {
  }

  /** Everybody's rules carry over, so the whole offer does. */
  lemma OfferCarriesOver(date: Calendar, world: World, table: Table, request: Request, s: Service, now: Time, t: Time)
    requires Validated(s) && Ordered(date) && RangeSuffices(request, s, t)
    requires OnItsDates(date, world.branch) && SamePeople(world.roles)
    requires Offered(date, world, table, request, s, now, t)
    requires var mine, yours := DaysOf(date, Resolving(request, s, t), s, now), DaysOf(date, request, s, now);
      var inputs := InputsFor(date, world, table, request, s, now);
      inputs.roles != [] ==> forall r, k | 0 <= r < |world.roles| && 0 <= k < |world.roles[r]| ::
        RulesCarry(world.roles[r][k].rules, mine, yours, ReservationWindow(s, t))
    ensures Offered(date, world, table, Resolving(request, s, t), s, now, t)
  {
    var resolving, block := Resolving(request, s, t), ReservationWindow(s, t);
    var mine, yours := DaysOf(date, resolving, s, now), DaysOf(date, request, s, now);
    var a, b := InputsFor(date, world, table, resolving, s, now), InputsFor(date, world, table, request, s, now);
    var w :| Stretch(b.openings, w) && Offerable(request, b, s, now, w, t);
    OfferedCanBe(date, world, table, request, s, now, t, w);
    DatesInRange(date, request, s, now, t);
    StretchStays(date, world.branch, mine, yours, w, t);
    RolesCarryOver(date, world, table, request, s, now, t, w);
    TimesCarryOver(world, request, s, now, t, w);
    assert Offerable(resolving, a, s, now, w, t);
  }

  /** The grid, the range and the closures of the branch. */
  lemma TimesCarryOver(world: World, request: Request, s: Service, now: Time, t: Time, w: Interval)
    requires Validated(s) && RangeSuffices(request, s, t)
    requires OnGrid(t, w.start, GridStep(request)) && Earliest(request, s, now) <= t
    requires t + s.duration * MINUTE <= Latest(request, s, now)
    requires forall u | ReservationWindow(s, t).Has(u) :: !Covered(Loaded(world.closures, Range(request)), u)
    ensures var resolving := Resolving(request, s, t);
      && OnGrid(t, w.start, GridStep(resolving)) && Earliest(resolving, s, now) <= t
      && t + s.duration * MINUTE <= Latest(resolving, s, now)
      && forall u | ReservationWindow(s, t).Has(u) :: !Covered(Loaded(world.closures, Range(resolving)), u)
  {
    CoarseGridIsFine(request, t, w.start);
    ResolvingMeetsNoMore(request, s, t);
    PeriodsShowNoMore(world.closures, Range(Resolving(request, s, t)), Range(request), ReservationWindow(s, t));
  }

  lemma BlockInStretch(inputs: Inputs, n: nat, block: Interval, preferred: Option<Resource>, w: Interval, t: Time)
    requires 0 < n <= |inputs.roles| && Picked(inputs, n, block, preferred).Some?
    requires Stretch(inputs.openings, w) && w.Has(t) && block.Has(t)
    ensures w.Contains(block)
  {
    PickedServes(inputs, n, block, preferred);
    assert Serves(inputs, 0, Picked(inputs, n, block, preferred).value[0], block);
    assert block.Has(w.start - 1) ==> Covered(inputs.openings, w.start - 1);
    assert block.Has(w.end) ==> Covered(inputs.openings, w.end);
  }

  lemma RolesCarryOver(date: Calendar, world: World, table: Table, request: Request, s: Service, now: Time, t: Time,
      w: Interval)
    requires Validated(s) && SamePeople(world.roles) && RangeSuffices(request, s, t)
    requires CanBeOffered(date, request, s, now, t) && w.Has(t)
    requires var mine, yours := DaysOf(date, Resolving(request, s, t), s, now), DaysOf(date, request, s, now);
      var b := InputsFor(date, world, table, request, s, now);
      && (b.roles != [] ==> forall r, k | 0 <= r < |world.roles| && 0 <= k < |world.roles[r]| ::
            RulesCarry(world.roles[r][k].rules, mine, yours, ReservationWindow(s, t)))
      && Stretch(b.openings, w) && Stretch(Openings(world.branch, mine.first, mine.last), w)
      && Picked(b, |b.roles|, ReservationWindow(s, t), request.preferred).Some?
    ensures var a := InputsFor(date, world, table, Resolving(request, s, t), s, now);
      Picked(a, |a.roles|, ReservationWindow(s, t), request.preferred).Some?
  {
    var resolving, block := Resolving(request, s, t), ReservationWindow(s, t);
    var mine, yours := DaysOf(date, resolving, s, now), DaysOf(date, request, s, now);
    var a, b := InputsFor(date, world, table, resolving, s, now), InputsFor(date, world, table, request, s, now);
    if b.roles == [] {
      SameRoleCount(world.roles, mine, yours, Range(resolving), Range(request));
    } else {
      BlockInStretch(b, |b.roles|, block, request.preferred, w, t);
      ResolvingMeetsNoMore(request, s, t);
      forall r, k | 0 <= r < |world.roles| && 0 <= k < |world.roles[r]|
        ensures PersonFollows(a, b, world.roles[r][k], mine, yours, Range(resolving), Range(request), block)
      {
        PersonCarriesOver(a, b, table, world.roles[r][k], mine, yours, Range(resolving), Range(request), now, block);
      }
      LoadedRolesFollow(a, b, world.roles, mine, yours, Range(resolving), Range(request), block);
      PeopleAreConsistent(world, yours);
      LoadIsConsistent(WorldOn(world, yours), table.rows, table.tenant, table.resources, Range(request), now);
      PickedFollows(a, b, |b.roles|, block, request.preferred);
    }
  }

  lemma {:induction false} SameRoleSize(ps: seq<Person>, mine: Days, yours: Days, w: Interval, v: Interval)
    ensures |LoadRole(RoleOn(ps, mine), w)| == |LoadRole(RoleOn(ps, yours), v)|
  {
    if ps != [] {
      var n := |ps| - 1;
      SameRoleSize(ps[..n], mine, yours, w, v);
      LoadRoleLast(RoleOn(ps[..n], mine), CandidateOn(ps[n], mine), w);
      LoadRoleLast(RoleOn(ps[..n], yours), CandidateOn(ps[n], yours), v);
    }
  }

  lemma {:induction false} SameRoleCount(roles: seq<seq<Person>>, mine: Days, yours: Days, w: Interval, v: Interval)
    ensures |LoadRoles(RolesOn(roles, mine), w)| == |LoadRoles(RolesOn(roles, yours), v)|
  {
    if roles != [] {
      var n := |roles| - 1;
      SameRoleCount(roles[..n], mine, yours, w, v);
      SameRoleSize(roles[n], mine, yours, w, v);
      LoadRolesLast(RolesOn(roles[..n], mine), RoleOn(roles[n], mine), w);
      LoadRolesLast(RolesOn(roles[..n], yours), RoleOn(roles[n], yours), v);
    }
  }

  // ----- When every offer is found -----

  /** The block fits one date of the zone, and resolve_slot's range has it if the search's does. */
  ghost predicate ZoneSuffices(zone: Calendar, mine: Days, yours: Days, block: Interval) {
    zone(block.start) == zone(block.end) && yours.Have(zone(block.start)) ==> mine.Have(zone(block.start))
  }

  lemma ZoneRulesCarry(zone: Calendar, rules: Schedule, mine: Days, yours: Days, block: Interval)
    requires OnItsDates(zone, rules) && block.start < block.end && ZoneSuffices(zone, mine, yours, block)
    ensures RulesCarry(Some(rules), mine, yours, block)
  {
    if forall u | block.Has(u) :: Covered(Openings(rules, yours.first, yours.last), u) {
      assert block.Has(block.start);
      SameDate(zone, rules, yours, block.start, block.end);
      CoveredOnDate(zone, rules, yours, block.start);
      forall u | block.Has(u) ensures Covered(Openings(rules, mine.first, mine.last), u) {
        SameDate(zone, rules, yours, block.start, u);
        CoveredOnDate(zone, rules, yours, u);
        CoveredOnDate(zone, rules, mine, u);
      }
    }
  }

  /** The latest grid point the engine can start a window on and still fit the block. */
  function GridStart(request: Request, s: Service, t: Time): Time {
    var step, lead := GridStep(request), s.bufferBefore * MINUTE;
    t - step * ((lead + step - 1) / step)
  }

  /** The block, from that grid point on, fits one date of the branch, as it must for any
      resource to serve it. */
  ghost predicate FitsOneDate(date: Calendar, request: Request, s: Service, t: Time) {
    date(GridStart(request, s, t)) == date(t) == date(ReservationWindow(s, t).end)
  }

  lemma GridStartFits(request: Request, s: Service, t: Time, anchor: Time)
    requires ProperService(s)
    ensures OnGrid(t, GridStart(request, s, t), GridStep(request))
    ensures GridStart(request, s, t) <= ReservationWindow(s, t).start
    ensures OnGrid(t, anchor, GridStep(request)) && anchor <= ReservationWindow(s, t).start ==>
      anchor <= GridStart(request, s, t)
  {
    var step, lead := GridStep(request), s.bufferBefore * MINUTE;
    var k := (lead + step - 1) / step;
    assert lead + step - 1 == step * k + (lead + step - 1) % step;
    ModUnique(step * k, k, 0, step);
    if OnGrid(t, anchor, step) && anchor <= t - lead {
      var q := (t - anchor) / step;
      assert t - anchor == step * q;
      MulAtLeast(step, k - q);
      assert step * (k - q) == step * k - step * q;
    }
  }

  /** A served block lies in the stretch, on its date. */
  lemma ServedBlockFits(date: Calendar, world: World, table: Table, request: Request, s: Service, now: Time, t: Time,
      w: Interval)
    requires Validated(s) && OnItsDates(date, world.branch) && s.active
    requires var inputs := InputsFor(date, world, table, request, s, now);
      inputs.roles != [] && Stretch(inputs.openings, w) && Offerable(request, inputs, s, now, w, t)
    ensures FitsOneDate(date, request, s, t)
    ensures forall u | ReservationWindow(s, t).Has(u) :: date(u) == date(t)
  {
    var inputs, block := InputsFor(date, world, table, request, s, now), ReservationWindow(s, t);
    var days := DaysOf(date, request, s, now);
    OfferedCanBe(date, world, table, request, s, now, t, w);
    BlockInStretch(inputs, |inputs.roles|, block, request.preferred, w, t);
    GridStartFits(request, s, t, w.start);
    SameDate(date, world.branch, days, GridStart(request, s, t), t);
    SameDate(date, world.branch, days, t, block.end);
    forall u | block.Has(u) ensures date(u) == date(t) {
      SameDate(date, world.branch, days, block.start, u);
      SameDate(date, world.branch, days, block.start, t);
    }
  }

  ghost predicate CarriesOver(date: Calendar, world: World, table: Table, request: Request, s: Service, now: Time,
      t: Time)
  {
    Offered(date, world, table, request, s, now, t) ==>
    Offered(date, world, table, Resolving(request, s, t), s, now, t)
  }

  /** On every world with resources in these zones, and every table. */
  ghost predicate Found(date: Calendar, zones: seq<Calendar>, request: Request, s: Service, now: Time, t: Time) {
    forall world, table | Sound(date, zones, world) :: CarriesOver(date, world, table, request, s, now, t)
  }

  /** For no zone does the block's date reach the search only. */
  ghost predicate ZonesSuffice(date: Calendar, zones: seq<Calendar>, request: Request, s: Service, now: Time, t: Time) {
    forall k | 0 <= k < |zones| :: ZoneSuffices(zones[k], DaysOf(date, Resolving(request, s, t), s, now),
      DaysOf(date, request, s, now), ReservationWindow(s, t))
  }

  lemma SoundOfferCarriesOver(date: Calendar, zones: seq<Calendar>, world: World, table: Table, request: Request,
      s: Service, now: Time, t: Time)
    requires Validated(s) && Ordered(date) && Sound(date, zones, world) && RangeSuffices(request, s, t)
    requires FitsOneDate(date, request, s, t) ==> ZonesSuffice(date, zones, request, s, now, t)
    ensures CarriesOver(date, world, table, request, s, now, t)
  {
    if Offered(date, world, table, request, s, now, t) {
      var inputs, block := InputsFor(date, world, table, request, s, now), ReservationWindow(s, t);
      var mine, yours := DaysOf(date, Resolving(request, s, t), s, now), DaysOf(date, request, s, now);
      var w :| Stretch(inputs.openings, w) && Offerable(request, inputs, s, now, w, t);
      OfferedCanBe(date, world, table, request, s, now, t, w);
      DatesInRange(date, request, s, now, t);
      if inputs.roles != [] {
        ServedBlockFits(date, world, table, request, s, now, t, w);
        assert block.Has(block.start) && ZoneSuffices(date, mine, yours, block);
        forall r, k | 0 <= r < |world.roles| && 0 <= k < |world.roles[r]| && world.roles[r][k].rules.Some?
          ensures RulesCarry(world.roles[r][k].rules, mine, yours, block)
        {
          var rules := world.roles[r][k].rules.value;
          var zone :| (zone == date || zone in zones) && OnItsDates(zone, rules);
          ZoneRulesCarry(zone, rules, mine, yours, block);
        }
      }
      OfferCarriesOver(date, world, table, request, s, now, t);
    }
  }
}
