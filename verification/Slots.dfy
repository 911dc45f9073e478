/** `compute_slots`: every bookable start time, with the resources that would serve it. */
module Slots {
  import opened Basics
  import opened Reservations
  import opened Availability

  /** Minutes and days, as configured. */
  datatype Service = Service(
    active: bool, duration: int, bufferBefore: int, bufferAfter: int, minNotice: int, maxHorizonDays: int)

  datatype Request = Request(
    rangeStart: Time, rangeEnd: Time, granularity: int, limit: int, preferred: Option<Resource>)

  datatype Slot = Slot(startsAt: Time, endsAt: Time, resources: seq<Resource>)

  /** Of what `Service.validation_error` lets through, what the engine relies on. */
  predicate ProperService(s: Service) {
    s.duration > 0 && s.bufferBefore >= 0 && s.bufferAfter >= 0
  }

  /** A resource is the same wherever it is a candidate. */
  predicate Consistent(inputs: Inputs) {
    forall r, k, r', k' | 0 <= r < |inputs.roles| && 0 <= k < |inputs.roles[r]| &&
      0 <= r' < |inputs.roles| && 0 <= k' < |inputs.roles[r']| ::
      inputs.roles[r][k].id == inputs.roles[r'][k'].id ==> inputs.roles[r][k] == inputs.roles[r'][k']
  }

  /** `reservation_window`: the appointment with its buffers. */
  function ReservationWindow(s: Service, startsAt: Time): Interval {
    Interval(startsAt - s.bufferBefore * MINUTE, startsAt + (s.duration + s.bufferAfter) * MINUTE)
  }

  function Earliest(request: Request, s: Service, now: Time): Time {
    var noticed := now + s.minNotice * MINUTE;
    if request.rangeStart >= noticed then request.rangeStart else noticed
  }

  function Latest(request: Request, s: Service, now: Time): Time {
    Min(Min(request.rangeEnd, now + s.maxHorizonDays * DAY), Earliest(request, s, now) + MAX_QUERY_DAYS * DAY)
  }

  function GridStep(request: Request): (step: int)
    ensures step > 0
  {
    if request.granularity >= 1 then request.granularity * MINUTE else MINUTE
  }

  // ----- One free resource per role -----

  function Named(cs: seq<Candidate>, id: Resource): seq<Candidate> {
    if cs == [] then [] else (if cs[0].id == id then [cs[0]] else []) + Named(cs[1..], id)
  }

  /** A preference counts within the role that has it. */
  function Preferring(cs: seq<Candidate>, preferred: Option<Resource>): seq<Candidate> {
    if preferred.Some? && Named(cs, preferred.value) != [] then Named(cs, preferred.value) else cs
  }

  ghost function FirstUsable(inputs: Inputs, cs: seq<Candidate>, chosen: seq<Resource>, block: Interval):
      Option<Resource>
  {
    if cs == [] then None
    else if cs[0].id !in chosen && Usable(inputs, cs[0], block) then Some(cs[0].id)
    else FirstUsable(inputs, cs[1..], chosen, block)
  }

  /** The first usable candidate of each role, no resource twice; None if a role has none. */
  ghost function Picked(inputs: Inputs, n: nat, block: Interval, preferred: Option<Resource>): Option<seq<Resource>>
    requires n <= |inputs.roles|
  {
    if n == 0 then Some([])
    else
      match Picked(inputs, n - 1, block, preferred)
      case None => None
      case Some(chosen) =>
        match FirstUsable(inputs, Preferring(inputs.roles[n - 1], preferred), chosen, block)
        case None => None
        case Some(id) => Some(chosen + [id])
  }

  lemma {:induction false} FirstUsableIsUsable(inputs: Inputs, cs: seq<Candidate>, chosen: seq<Resource>,
      block: Interval)
    ensures var r := FirstUsable(inputs, cs, chosen, block);
      if r.Some? then r.value !in chosen && exists c :: c in cs && c.id == r.value && Usable(inputs, c, block)
      else forall c | c in cs :: c.id in chosen || !Usable(inputs, c, block)
  {
    if cs != [] {
      FirstUsableIsUsable(inputs, cs[1..], chosen, block);
      assert cs == [cs[0]] + cs[1..];
    }
  }

  lemma {:induction false} NamedMembers(cs: seq<Candidate>, id: Resource)
    ensures forall c :: c in Named(cs, id) <==> c in cs && c.id == id
  {
    if cs != [] {
      NamedMembers(cs[1..], id);
      assert cs == [cs[0]] + cs[1..];
    }
  }

  lemma PreferringMembers(cs: seq<Candidate>, preferred: Option<Resource>)
    ensures forall c | c in Preferring(cs, preferred) :: c in cs
    ensures preferred.Some? && (exists c :: c in cs && c.id == preferred.value) ==>
      forall c | c in Preferring(cs, preferred) :: c.id == preferred.value
  {
    if preferred.Some? {
      NamedMembers(cs, preferred.value);
    }
  }

  /** Each role is served by one of its own candidates, usable for the whole block, and no
      resource serves two roles. */
  lemma {:induction false} PickedServes(inputs: Inputs, n: nat, block: Interval, preferred: Option<Resource>)
    requires n <= |inputs.roles| && Picked(inputs, n, block, preferred).Some?
    ensures var ids := Picked(inputs, n, block, preferred).value;
      && |ids| == n && Distinct(ids)
      && forall r | 0 <= r < n :: Serves(inputs, r, ids[r], block)
  {
    if n > 0 {
      PickedServes(inputs, n - 1, block, preferred);
      var chosen := Picked(inputs, n - 1, block, preferred).value;
      var cs := Preferring(inputs.roles[n - 1], preferred);
      FirstUsableIsUsable(inputs, cs, chosen, block);
      PreferringMembers(inputs.roles[n - 1], preferred);
    }
  }

  ghost predicate Serves(inputs: Inputs, r: nat, id: Resource, block: Interval)
    requires r < |inputs.roles|
  {
    exists c :: c in inputs.roles[r] && c.id == id && Usable(inputs, c, block)
  }

  /** The open windows of a resource: the branch's, narrowed by its own rules. */
  ghost predicate WindowsOf(inputs: Inputs, c: Candidate, windows: seq<Interval>) {
    && Separated(windows)
    && forall t :: Covered(windows, t) <==> Covered(inputs.openings, t) && (c.own.Some? ==> Covered(c.own.value, t))
  }

  ghost predicate AllWindows(inputs: Inputs, windows: map<Resource, seq<Interval>>) {
    forall r, k | 0 <= r < |inputs.roles| && 0 <= k < |inputs.roles[r]| ::
      inputs.roles[r][k].id in windows && WindowsOf(inputs, inputs.roles[r][k], windows[inputs.roles[r][k].id])
  }

  ghost predicate CandidateWindows(inputs: Inputs, cs: seq<Candidate>, windows: map<Resource, seq<Interval>>) {
    forall k | 0 <= k < |cs| ::
      ProperCandidate(cs[k]) && cs[k].id in windows && WindowsOf(inputs, cs[k], windows[cs[k].id])
  }

  lemma PreferringProper(inputs: Inputs, windows: map<Resource, seq<Interval>>, r: nat, preferred: Option<Resource>)
    requires ProperInputs(inputs) && AllWindows(inputs, windows) && r < |inputs.roles|
    ensures CandidateWindows(inputs, Preferring(inputs.roles[r], preferred), windows)
  {
    var cs := Preferring(inputs.roles[r], preferred);
    PreferringMembers(inputs.roles[r], preferred);
    forall k | 0 <= k < |cs|
      ensures ProperCandidate(cs[k]) && cs[k].id in windows && WindowsOf(inputs, cs[k], windows[cs[k].id])
    {
      assert cs[k] in cs && cs[k] in inputs.roles[r];
      var m :| 0 <= m < |inputs.roles[r]| && inputs.roles[r][m] == cs[k];
    }
  }

  /** `next(...)` over one role's candidates. */
  method PickOne(inputs: Inputs, cs: seq<Candidate>, chosen: seq<Resource>, block: Interval,
      windows: map<Resource, seq<Interval>>)
    returns (pick: Option<Resource>)
    requires ProperInputs(inputs) && block.start < block.end
    requires CandidateWindows(inputs, cs, windows)
    ensures pick == FirstUsable(inputs, cs, chosen, block)
  {
    for k := 0 to |cs|
      invariant FirstUsable(inputs, cs, chosen, block) == FirstUsable(inputs, cs[k..], chosen, block)
    {
      assert cs[k..][0] == cs[k] && cs[k..][1..] == cs[k + 1..];
      if cs[k].id !in chosen {
        var free := ResourceFree(inputs, cs[k], block, windows[cs[k].id]);
        if free {
          return Some(cs[k].id);
        }
      }
    }
    return None;
  }

  lemma PickStep(inputs: Inputs, r: nat, block: Interval, preferred: Option<Resource>, chosen: seq<Resource>)
    requires r < |inputs.roles| && Picked(inputs, r, block, preferred) == Some(chosen)
    ensures var pick := FirstUsable(inputs, Preferring(inputs.roles[r], preferred), chosen, block);
      Picked(inputs, r + 1, block, preferred) == if pick.None? then None else Some(chosen + [pick.value])
  {
  }

  /** `_pick_resources`. */
  method PickResources(inputs: Inputs, block: Interval, windows: map<Resource, seq<Interval>>,
      preferred: Option<Resource>)
    returns (picked: Option<seq<Resource>>)
    requires ProperInputs(inputs) && AllWindows(inputs, windows) && block.start < block.end
    ensures picked == Picked(inputs, |inputs.roles|, block, preferred)
  {
    var chosen: seq<Resource> := [];
    for r := 0 to |inputs.roles|
      invariant Picked(inputs, r, block, preferred) == Some(chosen)
    {
      var cs := Preferring(inputs.roles[r], preferred);
      PreferringProper(inputs, windows, r, preferred);
      var pick := PickOne(inputs, cs, chosen, block, windows);
      PickStep(inputs, r, block, preferred, chosen);
      if pick.None? {
        NoneFromHere(inputs, r, block, preferred);
        return None;
      }
      chosen := chosen + [pick.value];
    }
    return Some(chosen);
  }

  lemma {:induction false} NoneFromHere(inputs: Inputs, r: nat, block: Interval, preferred: Option<Resource>)
    requires r < |inputs.roles| && Picked(inputs, r + 1, block, preferred) == None
    ensures Picked(inputs, |inputs.roles|, block, preferred) == None
    decreases |inputs.roles| - r
  {
    if r + 1 < |inputs.roles| {
      NoneFromHere(inputs, r + 1, block, preferred);
    }
  }

  // ----- The grid -----

  /** A whole number of steps after the anchor. */
  predicate OnGrid(t: Time, anchor: Time, step: int)
    requires step > 0
  {
    (t - anchor) % step == 0
  }

  lemma MulAtLeast(s: int, d: int)
    requires s > 0
    ensures d >= 1 ==> s * d >= s
    ensures d <= -1 ==> s * d <= -s
  {
    if d >= 1 {
      assert s * (d - 1) >= 0;
    } else if d <= -1 {
      assert s * (-d - 1) >= 0;
    }
  }

  lemma ModUnique(x: int, q: int, r: int, s: int)
    requires s > 0 && x == s * q + r && 0 <= r < s
    ensures x % s == r
  {
    var q', r' := x / s, x % s;
    assert x == s * q' + r';
    assert s * (q - q') == r' - r;
    MulAtLeast(s, q - q');
  }

  /** After the grid point at or below t, the next is one step on, and none lies between. */
  lemma GridNext(t: Time, anchor: Time, step: int)
    requires step > 0
    ensures var below := t - (t - anchor) % step;
      OnGrid(below + step, anchor, step) && forall u | below < u < below + step :: !OnGrid(u, anchor, step)
  {
    var x := t - anchor;
    var below, q := t - x % step, x / step;
    assert x == step * q + x % step;
    assert below + step - anchor == step * (q + 1) + 0;
    ModUnique(below + step - anchor, q + 1, 0, step);
    forall u | below < u < below + step ensures !OnGrid(u, anchor, step) {
      assert u - anchor == step * q + (u - below);
      ModUnique(u - anchor, q, u - below, step);
    }
  }

  /** A start time the engine may offer out of one stretch of the branch's opening hours. */
  ghost predicate Offerable(request: Request, inputs: Inputs, s: Service, now: Time, window: Interval, t: Time) {
    && window.start <= t && OnGrid(t, window.start, GridStep(request))
    && Earliest(request, s, now) <= t
    && t + s.duration * MINUTE <= Min(window.end, Latest(request, s, now))
    && (forall u | ReservationWindow(s, t).Has(u) :: !Covered(inputs.closures, u))
    && Picked(inputs, |inputs.roles|, ReservationWindow(s, t), request.preferred).Some?
  }

  /** In the fields of request and service alone: no earlier than the range and the notice, over
      no later than the range, the horizon and 62 days, on the grid of its stretch, with the
      whole block clear of closures and every role filled. */
  lemma WhenStartIsOfferable(request: Request, inputs: Inputs, s: Service, now: Time, window: Interval, t: Time)
    ensures Offerable(request, inputs, s, now, window, t) <==>
      var step := if request.granularity >= 1 then request.granularity * MINUTE else MINUTE;
      var end, from := t + s.duration * MINUTE, now + s.minNotice * MINUTE;
      var block := Interval(t - s.bufferBefore * MINUTE, end + s.bufferAfter * MINUTE);
      && window.start <= t && end <= window.end && (t - window.start) % step == 0
      && request.rangeStart <= t && from <= t
      && end <= request.rangeEnd && end <= now + s.maxHorizonDays * DAY
      && (end <= request.rangeStart + 62 * DAY || end <= from + 62 * DAY)
      && (forall u | block.start <= u < block.end :: !Covered(inputs.closures, u))
      && Picked(inputs, |inputs.roles|, block, request.preferred).Some?
  {
    assert ReservationWindow(s, t) ==
      Interval(t - s.bufferBefore * MINUTE, t + s.duration * MINUTE + s.bufferAfter * MINUTE);
  }

  predicate Offers(slots: seq<Slot>, t: Time) {
    exists i :: 0 <= i < |slots| && slots[i].startsAt == t
  }

  predicate Ascending(slots: seq<Slot>) {
    forall i, j | 0 <= i < j < |slots| :: slots[i].startsAt < slots[j].startsAt
  }

  /** Each resource's windows, resource by resource. */
  method WindowsByResource(inputs: Inputs, location: seq<Interval>) returns (windows: map<Resource, seq<Interval>>)
    requires ProperInputs(inputs) && Consistent(inputs) && Separated(location)
    requires forall t :: Covered(location, t) <==> Covered(inputs.openings, t)
    ensures AllWindows(inputs, windows)
  {
    windows := map[];
    for r := 0 to |inputs.roles|
      invariant forall r', k | 0 <= r' < r && 0 <= k < |inputs.roles[r']| ::
        inputs.roles[r'][k].id in windows && WindowsOf(inputs, inputs.roles[r'][k], windows[inputs.roles[r'][k].id])
    {
      for k := 0 to |inputs.roles[r]|
        invariant forall r', k' | 0 <= r' < |inputs.roles| && 0 <= k' < |inputs.roles[r']| &&
          (r' < r || (r' == r && k' < k)) ::
          && inputs.roles[r'][k'].id in windows
          && WindowsOf(inputs, inputs.roles[r'][k'], windows[inputs.roles[r'][k'].id])
      {
        var c := inputs.roles[r][k];
        var open := location;
        if c.own.Some? {
          var own := Merge(c.own.value);
          open := Intersect(location, own);
        }
        assert WindowsOf(inputs, c, open);
        windows := windows[c.id := open];
      }
    }
  }

  ghost predicate GenuineIn(request: Request, inputs: Inputs, s: Service, now: Time, window: Interval, slot: Slot) {
    && Offerable(request, inputs, s, now, window, slot.startsAt)
    && slot.endsAt == slot.startsAt + s.duration * MINUTE
    && Picked(inputs, |inputs.roles|, ReservationWindow(s, slot.startsAt), request.preferred) == Some(slot.resources)
  }

  /** Offered out of one of the first n stretches. */
  ghost predicate Genuine(request: Request, inputs: Inputs, s: Service, now: Time, windows: seq<Interval>,
      n: nat, slot: Slot)
    requires n <= |windows|
  {
    exists k :: 0 <= k < n && GenuineIn(request, inputs, s, now, windows[k], slot)
  }

  ghost predicate OfferedBefore(request: Request, inputs: Inputs, s: Service, now: Time, window: Interval,
      cursor: Time, slots: seq<Slot>)
  {
    forall t | t < cursor && Offerable(request, inputs, s, now, window, t) :: Offers(slots, t)
  }

  /** Slots offered so far out of one stretch, the cursor on its next grid point. */
  ghost predicate Offering(request: Request, inputs: Inputs, s: Service, now: Time, window: Interval, cursor: Time,
      sofar: seq<Slot>, slots: seq<Slot>)
  {
    && window.start <= cursor && Earliest(request, s, now) <= cursor
    && OnGrid(cursor, window.start, GridStep(request))
    && sofar <= slots && Ascending(slots)
    && (forall i | |sofar| <= i < |slots| :: GenuineIn(request, inputs, s, now, window, slots[i]))
    && (forall i | 0 <= i < |slots| :: slots[i].startsAt < cursor && slots[i].startsAt < window.end)
    && OfferedBefore(request, inputs, s, now, window, cursor, slots)
  }

  lemma FirstCursor(request: Request, inputs: Inputs, s: Service, now: Time, window: Interval, sofar: seq<Slot>)
    requires window.start < window.end
    requires Ascending(sofar) && forall i | 0 <= i < |sofar| :: sofar[i].startsAt < window.start
    ensures var from := if window.start >= Earliest(request, s, now) then window.start else Earliest(request, s, now);
      var offset := (from - window.start) % GridStep(request);
      var cursor := if offset != 0 then from + (GridStep(request) - offset) else from;
      Offering(request, inputs, s, now, window, cursor, sofar, sofar)
  {
    var from := if window.start >= Earliest(request, s, now) then window.start else Earliest(request, s, now);
    GridNext(from, window.start, GridStep(request));
  }

  lemma SkipStart(request: Request, inputs: Inputs, s: Service, now: Time, window: Interval, cursor: Time,
      sofar: seq<Slot>, slots: seq<Slot>)
    requires Offering(request, inputs, s, now, window, cursor, sofar, slots)
    requires !Offerable(request, inputs, s, now, window, cursor)
    ensures Offering(request, inputs, s, now, window, cursor + GridStep(request), sofar, slots)
  {
    GridNext(cursor, window.start, GridStep(request));
  }

  lemma OfferSlot(request: Request, inputs: Inputs, s: Service, now: Time, window: Interval, cursor: Time,
      sofar: seq<Slot>, slots: seq<Slot>, slot: Slot)
    requires Offering(request, inputs, s, now, window, cursor, sofar, slots)
    requires GenuineIn(request, inputs, s, now, window, slot) && slot.startsAt == cursor < window.end
    ensures Offering(request, inputs, s, now, window, cursor + GridStep(request), sofar, slots + [slot])
  {
    GridNext(cursor, window.start, GridStep(request));
    OfferedWithSlot(request, inputs, s, now, window, cursor, slots, slot);
    assert forall i | 0 <= i < |slots| :: (slots + [slot])[i] == slots[i];
  }

  lemma OfferedWithSlot(request: Request, inputs: Inputs, s: Service, now: Time, window: Interval, cursor: Time,
      slots: seq<Slot>, slot: Slot)
    requires OnGrid(cursor, window.start, GridStep(request)) && slot.startsAt == cursor
    requires OfferedBefore(request, inputs, s, now, window, cursor, slots)
    ensures OfferedBefore(request, inputs, s, now, window, cursor + GridStep(request), slots + [slot])
  {
    var more := slots + [slot];
    GridNext(cursor, window.start, GridStep(request));
    forall t | t < cursor + GridStep(request) && Offerable(request, inputs, s, now, window, t) ensures Offers(more, t) {
      if t < cursor {
        assert Offers(slots, t);
        var i :| 0 <= i < |slots| && slots[i].startsAt == t;
        assert more[i] == slots[i];
      } else {
        assert more[|slots|].startsAt == t;
      }
    }
  }

  /** Past the end, or full. */
  lemma AllReached(request: Request, inputs: Inputs, s: Service, now: Time, window: Interval, cursor: Time,
      sofar: seq<Slot>, slots: seq<Slot>)
    requires Offering(request, inputs, s, now, window, cursor, sofar, slots)
    requires cursor + s.duration * MINUTE > Min(window.end, Latest(request, s, now)) ||
      (slots != [] && |slots| >= request.limit)
    ensures forall t | Offerable(request, inputs, s, now, window, t) :: Reached(request, slots, t)
  {
  }

  lemma StartIsOfferable(request: Request, inputs: Inputs, s: Service, now: Time, window: Interval, cursor: Time,
      sofar: seq<Slot>, slots: seq<Slot>, closures: seq<Interval>)
    requires forall t :: Covered(closures, t) <==> Covered(inputs.closures, t)
    requires Offering(request, inputs, s, now, window, cursor, sofar, slots)
    requires cursor + s.duration * MINUTE <= Min(window.end, Latest(request, s, now))
    ensures Offerable(request, inputs, s, now, window, cursor) <==>
      && !(exists t :: ReservationWindow(s, cursor).Has(t) && Covered(closures, t))
      && Picked(inputs, |inputs.roles|, ReservationWindow(s, cursor), request.preferred).Some?
  {
  }

  /** The engine's inner loop: one stretch of opening hours, up to the limit. */
  method OfferWindow(request: Request, inputs: Inputs, s: Service, now: Time, window: Interval,
      closures: seq<Interval>, open: map<Resource, seq<Interval>>, sofar: seq<Slot>)
    returns (slots: seq<Slot>, full: bool)
    requires ProperInputs(inputs) && ProperService(s) && AllWindows(inputs, open)
    requires Nonempty(closures) && forall t :: Covered(closures, t) <==> Covered(inputs.closures, t)
    requires window.start < window.end
    requires |sofar| < request.limit || sofar == []
    requires Ascending(sofar) && forall i | 0 <= i < |sofar| :: sofar[i].startsAt < window.start
    ensures sofar <= slots && Ascending(slots)
    ensures forall i | |sofar| <= i < |slots| :: GenuineIn(request, inputs, s, now, window, slots[i])
    ensures forall i | 0 <= i < |slots| :: slots[i].startsAt < window.end
    ensures forall t | Offerable(request, inputs, s, now, window, t) :: Reached(request, slots, t)
    ensures if full then slots != [] && |slots| >= request.limit && (|slots| == request.limit || |slots| == 1)
            else |slots| < request.limit || slots == []
  {
    slots, full := sofar, false;
    var earliest, latest := Earliest(request, s, now), Latest(request, s, now);
    var step, duration := GridStep(request), s.duration * MINUTE;
    var cursor := if window.start >= earliest then window.start else earliest;
    var offset := (cursor - window.start) % step;
    FirstCursor(request, inputs, s, now, window, sofar);
    if offset != 0 {
      cursor := cursor + (step - offset);
    }
    while cursor + duration <= Min(window.end, latest)
      invariant |slots| < request.limit || slots == []
      invariant Offering(request, inputs, s, now, window, cursor, sofar, slots)
      decreases Min(window.end, latest) - cursor
    {
      var block := ReservationWindow(s, cursor);
      StartIsOfferable(request, inputs, s, now, window, cursor, sofar, slots, closures);
      var closed := AnyOverlaps(closures, block);
      var picked: Option<seq<Resource>> := None;
      if !closed {
        picked := PickResources(inputs, block, open, request.preferred);
      }
      if picked.Some? {
        var slot := Slot(cursor, cursor + duration, picked.value);
        OfferSlot(request, inputs, s, now, window, cursor, sofar, slots, slot);
        slots := slots + [slot];
        if |slots| >= request.limit {
          AllReached(request, inputs, s, now, window, cursor + step, sofar, slots);
          full := true;
          return;
        }
      } else {
        SkipStart(request, inputs, s, now, window, cursor, sofar, slots);
      }
      cursor := cursor + step;
    }
    AllReached(request, inputs, s, now, window, cursor, sofar, slots);
  }

  /** Every start time the first n stretches could offer is there, unless the limit ended
      the list before it. */
  ghost predicate AllOffered(request: Request, inputs: Inputs, s: Service, now: Time, windows: seq<Interval>,
      n: nat, slots: seq<Slot>)
    requires n <= |windows|
  {
    forall k, t | 0 <= k < n && Offerable(request, inputs, s, now, windows[k], t) :: Reached(request, slots, t)
  }

  predicate Reached(request: Request, slots: seq<Slot>, t: Time) {
    Offers(slots, t) || (slots != [] && |slots| >= request.limit && slots[|slots| - 1].startsAt < t)
  }

  ghost predicate AllGenuine(request: Request, inputs: Inputs, s: Service, now: Time, windows: seq<Interval>,
      n: nat, slots: seq<Slot>)
    requires n <= |windows|
  {
    forall i | 0 <= i < |slots| :: Genuine(request, inputs, s, now, windows, n, slots[i])
  }

  lemma GenuineStep(request: Request, inputs: Inputs, s: Service, now: Time, windows: seq<Interval>, k: nat,
      before: seq<Slot>, slots: seq<Slot>)
    requires k < |windows| && before <= slots && AllGenuine(request, inputs, s, now, windows, k, before)
    requires forall i | |before| <= i < |slots| :: GenuineIn(request, inputs, s, now, windows[k], slots[i])
    ensures AllGenuine(request, inputs, s, now, windows, k + 1, slots)
  {
    forall i | 0 <= i < |slots| ensures Genuine(request, inputs, s, now, windows, k + 1, slots[i]) {
      if i < |before| {
        assert slots[i] == before[i];
        var m :| 0 <= m < k && GenuineIn(request, inputs, s, now, windows[m], before[i]);
      }
    }
  }

  lemma GenuineWiden(request: Request, inputs: Inputs, s: Service, now: Time, windows: seq<Interval>, n: nat,
      slots: seq<Slot>)
    requires n <= |windows| && AllGenuine(request, inputs, s, now, windows, n, slots)
    ensures AllGenuine(request, inputs, s, now, windows, |windows|, slots)
  {
    forall i | 0 <= i < |slots| ensures Genuine(request, inputs, s, now, windows, |windows|, slots[i]) {
      var m :| 0 <= m < n && GenuineIn(request, inputs, s, now, windows[m], slots[i]);
    }
  }

  lemma OfferedStep(request: Request, inputs: Inputs, s: Service, now: Time, windows: seq<Interval>, k: nat,
      before: seq<Slot>, slots: seq<Slot>)
    requires k < |windows| && before <= slots && AllOffered(request, inputs, s, now, windows, k, before)
    requires |before| < request.limit || before == []
    requires forall t | Offerable(request, inputs, s, now, windows[k], t) :: Reached(request, slots, t)
    ensures AllOffered(request, inputs, s, now, windows, k + 1, slots)
  {
    forall m, t | 0 <= m <= k && Offerable(request, inputs, s, now, windows[m], t) ensures Reached(request, slots, t) {
      if m < k {
        assert Reached(request, before, t) && Offers(before, t);
        var i :| 0 <= i < |before| && before[i].startsAt == t;
        assert slots[i] == before[i];
      }
    }
  }

  /** Whatever a later stretch offers comes after what an earlier one offered. */
  lemma OfferedWiden(request: Request, inputs: Inputs, s: Service, now: Time, windows: seq<Interval>, n: nat,
      slots: seq<Slot>)
    requires 0 < n <= |windows| && AllOffered(request, inputs, s, now, windows, n, slots)
    requires Separated(windows) && slots != [] && |slots| >= request.limit
    requires slots[|slots| - 1].startsAt < windows[n - 1].end
    ensures AllOffered(request, inputs, s, now, windows, |windows|, slots)
  {
    forall k, t | n <= k < |windows| && Offerable(request, inputs, s, now, windows[k], t)
      ensures Reached(request, slots, t)
    {
      assert windows[n - 1].end < windows[k].start <= t;
    }
  }

  /** The engine after the first k stretches, with room for more. */
  ghost predicate Computing(request: Request, inputs: Inputs, s: Service, now: Time, windows: seq<Interval>,
      k: nat, slots: seq<Slot>)
    requires k <= |windows|
  {
    && (|slots| < request.limit || slots == [])
    && AllGenuine(request, inputs, s, now, windows, k, slots)
    && Ascending(slots)
    && (k < |windows| ==> forall i | 0 <= i < |slots| :: slots[i].startsAt < windows[k].start)
    && AllOffered(request, inputs, s, now, windows, k, slots)
  }

  lemma EndsBeforeNext(windows: seq<Interval>, k: nat, slots: seq<Slot>)
    requires Separated(windows) && k + 1 < |windows|
    requires forall i | 0 <= i < |slots| :: slots[i].startsAt < windows[k].end
    ensures forall i | 0 <= i < |slots| :: slots[i].startsAt < windows[k + 1].start
  {
    assert windows[k].end < windows[k + 1].start;
  }

  lemma ComputeStep(request: Request, inputs: Inputs, s: Service, now: Time, windows: seq<Interval>, k: nat,
      before: seq<Slot>, slots: seq<Slot>)
    requires k < |windows| && Separated(windows) && Computing(request, inputs, s, now, windows, k, before)
    requires before <= slots && Ascending(slots)
    requires forall i | |before| <= i < |slots| :: GenuineIn(request, inputs, s, now, windows[k], slots[i])
    requires forall i | 0 <= i < |slots| :: slots[i].startsAt < windows[k].end
    requires forall t | Offerable(request, inputs, s, now, windows[k], t) :: Reached(request, slots, t)
    ensures AllGenuine(request, inputs, s, now, windows, k + 1, slots)
    ensures AllOffered(request, inputs, s, now, windows, k + 1, slots)
    ensures |slots| < request.limit || slots == [] ==> Computing(request, inputs, s, now, windows, k + 1, slots)
  {
    GenuineStep(request, inputs, s, now, windows, k, before, slots);
    OfferedStep(request, inputs, s, now, windows, k, before, slots);
    if k + 1 < |windows| {
      EndsBeforeNext(windows, k, slots);
    }
  }

  /** What is listed, in the fields alone: within range, notice and horizon, of the service's
      length, clear of closures, each role served by an active candidate of its own that is
      open, unblocked and not busy for the whole block. */
  lemma WhatIsListed(request: Request, inputs: Inputs, s: Service, now: Time, windows: seq<Interval>,
      slots: seq<Slot>, i: nat)
    requires AllGenuine(request, inputs, s, now, windows, |windows|, slots) && i < |slots|
    ensures request.rangeStart <= slots[i].startsAt && now + s.minNotice * MINUTE <= slots[i].startsAt
    ensures slots[i].endsAt == slots[i].startsAt + s.duration * MINUTE
    ensures slots[i].endsAt <= request.rangeEnd && slots[i].endsAt <= now + s.maxHorizonDays * DAY
    ensures |slots[i].resources| == |inputs.roles| && Distinct(slots[i].resources)
    ensures forall u | slots[i].startsAt - s.bufferBefore * MINUTE <= u < slots[i].endsAt + s.bufferAfter * MINUTE ::
      !Covered(inputs.closures, u)
    ensures forall r | 0 <= r < |inputs.roles| :: exists c ::
      && c in inputs.roles[r] && c.id == slots[i].resources[r] && c.active
      && forall u | slots[i].startsAt - s.bufferBefore * MINUTE <= u < slots[i].endsAt + s.bufferAfter * MINUTE ::
           && Covered(inputs.openings, u) && (c.own.Some? ==> Covered(c.own.value, u))
           && !Covered(c.blocks, u) && !Covered(BusyOf(inputs, c.id), u)
  {
    var t := slots[i].startsAt;
    var k :| 0 <= k < |windows| && GenuineIn(request, inputs, s, now, windows[k], slots[i]);
    WhenStartIsOfferable(request, inputs, s, now, windows[k], t);
    var block := ReservationWindow(s, t);
    PickedServes(inputs, |inputs.roles|, block, request.preferred);
    forall r | 0 <= r < |inputs.roles| ensures exists c ::
      && c in inputs.roles[r] && c.id == slots[i].resources[r] && c.active
      && forall u | t - s.bufferBefore * MINUTE <= u < slots[i].endsAt + s.bufferAfter * MINUTE ::
           && Covered(inputs.openings, u) && (c.own.Some? ==> Covered(c.own.value, u))
           && !Covered(c.blocks, u) && !Covered(BusyOf(inputs, c.id), u)
    {
      assert Serves(inputs, r, slots[i].resources[r], block);
      var c :| c in inputs.roles[r] && c.id == slots[i].resources[r] && Usable(inputs, c, block);
      assert forall u | t - s.bufferBefore * MINUTE <= u < slots[i].endsAt + s.bufferAfter * MINUTE :: block.Has(u);
    }
  }

  /** And what could be is listed: a start on the grid of a stretch, within range, notice and
      horizon, with a clear block and every role filled, unless the limit came first. */
  lemma NothingIsMissing(request: Request, inputs: Inputs, s: Service, now: Time, windows: seq<Interval>,
      slots: seq<Slot>, k: nat, t: Time)
    requires AllOffered(request, inputs, s, now, windows, |windows|, slots) && k < |windows|
    requires windows[k].start <= t && t + s.duration * MINUTE <= windows[k].end
    requires (t - windows[k].start) % (if request.granularity >= 1 then request.granularity * MINUTE else MINUTE) == 0
    requires request.rangeStart <= t && now + s.minNotice * MINUTE <= t
    requires t + s.duration * MINUTE <= request.rangeEnd && t + s.duration * MINUTE <= now + s.maxHorizonDays * DAY
    requires t + s.duration * MINUTE <= request.rangeStart + 62 * DAY ||
      t + s.duration * MINUTE <= now + (s.minNotice * MINUTE + 62 * DAY)
    requires var block := Interval(t - s.bufferBefore * MINUTE, t + (s.duration + s.bufferAfter) * MINUTE);
      && (forall u | block.start <= u < block.end :: !Covered(inputs.closures, u))
      && Picked(inputs, |inputs.roles|, block, request.preferred).Some?
    ensures (exists i :: 0 <= i < |slots| && slots[i].startsAt == t) ||
      (slots != [] && |slots| >= request.limit && slots[|slots| - 1].startsAt < t)
  {
    WhenStartIsOfferable(request, inputs, s, now, windows[k], t);
    assert Reached(request, slots, t);
  }

  /** Every slot offered is genuine, in time order; and every start time the engine could
      offer is there, unless the limit ended the list before it. */
  method ComputeSlots(request: Request, inputs: Inputs, s: Service, now: Time)
    returns (slots: seq<Slot>, ghost windows: seq<Interval>)
    requires ProperInputs(inputs) && Consistent(inputs) && ProperService(s)
    ensures Separated(windows) && forall t :: Covered(windows, t) <==> Covered(inputs.openings, t)
    ensures !s.active ==> slots == []
    ensures AllGenuine(request, inputs, s, now, windows, |windows|, slots)
    ensures Ascending(slots)
    ensures s.active ==> AllOffered(request, inputs, s, now, windows, |windows|, slots)
    ensures |slots| <= request.limit || |slots| <= 1
    ensures forall i | 0 <= i < |slots| ::
      && request.rangeStart <= slots[i].startsAt && now + s.minNotice * MINUTE <= slots[i].startsAt
      && slots[i].endsAt <= request.rangeEnd && slots[i].endsAt <= now + s.maxHorizonDays * DAY
  {
    slots := [];
    var location := Merge(inputs.openings);
    windows := location;
    if !s.active || Latest(request, s, now) <= Earliest(request, s, now) {
      return;
    }
    var closures := Merge(inputs.closures);
    var open := WindowsByResource(inputs, location);
    for k := 0 to |location|
      invariant Computing(request, inputs, s, now, windows, k, slots)
    {
      ghost var before := slots;
      var full;
      slots, full := OfferWindow(request, inputs, s, now, location[k], closures, open, slots);
      ComputeStep(request, inputs, s, now, windows, k, before, slots);
      if full {
        GenuineWiden(request, inputs, s, now, windows, k + 1, slots);
        OfferedWiden(request, inputs, s, now, windows, k + 1, slots);
        AllAreWithin(request, inputs, s, now, windows, slots);
        return;
      }
    }
    AllAreWithin(request, inputs, s, now, windows, slots);
  }

  lemma AllAreWithin(request: Request, inputs: Inputs, s: Service, now: Time, windows: seq<Interval>, slots: seq<Slot>)
    requires AllGenuine(request, inputs, s, now, windows, |windows|, slots)
    ensures forall i | 0 <= i < |slots| ::
      && request.rangeStart <= slots[i].startsAt && now + s.minNotice * MINUTE <= slots[i].startsAt
      && slots[i].endsAt <= request.rangeEnd && slots[i].endsAt <= now + s.maxHorizonDays * DAY
  {
    forall i: nat | i < |slots|
      ensures request.rangeStart <= slots[i].startsAt && now + s.minNotice * MINUTE <= slots[i].startsAt
      ensures slots[i].endsAt <= request.rangeEnd && slots[i].endsAt <= now + s.maxHorizonDays * DAY
    {
      WhatIsListed(request, inputs, s, now, windows, slots, i);
    }
  }
}
