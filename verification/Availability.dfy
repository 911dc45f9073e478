/** The availability engine (src/domain/scheduling/availability.py). Weekly rules arrive
    already resolved to instants; everything after that is here. */
module Availability {
  import opened Basics
  import opened Reservations

  const MINUTE := 60000000
  const DAY := 1440 * MINUTE
  const MAX_QUERY_DAYS := 62

  // ----- Lists of intervals as sets of instants -----

  predicate Covered(xs: seq<Interval>, t: Time) {
    exists k :: 0 <= k < |xs| && xs[k].Has(t)
  }

  predicate Nonempty(xs: seq<Interval>) {
    forall k | 0 <= k < |xs| :: xs[k].start < xs[k].end
  }

  /** In order, with a gap between neighbours: the maximal stretches of what they cover. */
  predicate Separated(xs: seq<Interval>) {
    Nonempty(xs) && forall i, j | 0 <= i < j < |xs| :: xs[i].end < xs[j].start
  }

  predicate Sorted(xs: seq<Interval>) {
    forall i, j | 0 <= i < j < |xs| :: xs[i].start <= xs[j].start
  }

  /** `sorted(intervals, key=lambda i: i.start)`. */
  function SortByStart(xs: seq<Interval>): (s: seq<Interval>)
    ensures Sorted(s) && multiset(s) == multiset(xs) && |s| == |xs|
  {
    if xs == [] then []
    else
      assert xs == xs[..|xs| - 1] + [xs[|xs| - 1]];
      Insert(SortByStart(xs[..|xs| - 1]), xs[|xs| - 1])
  }

  /** Where x goes: after everything that starts no later. */
  function Place(xs: seq<Interval>, x: Interval): (p: nat)
    requires Sorted(xs)
    ensures p <= |xs|
    ensures forall k | 0 <= k < p :: xs[k].start <= x.start
    ensures forall k | p <= k < |xs| :: x.start < xs[k].start
  {
    if xs == [] || xs[|xs| - 1].start <= x.start then |xs| else Place(xs[..|xs| - 1], x)
  }

  function Insert(xs: seq<Interval>, x: Interval): (s: seq<Interval>)
    requires Sorted(xs)
    ensures Sorted(s) && multiset(s) == multiset(xs) + multiset{x} && |s| == |xs| + 1
  {
    var p := Place(xs, x);
    assert xs == xs[..p] + xs[p..];
    xs[..p] + [x] + xs[p..]
  }

  lemma SameCover(a: seq<Interval>, b: seq<Interval>)
    requires multiset(a) == multiset(b)
    ensures forall t :: Covered(a, t) <==> Covered(b, t)
    ensures Nonempty(a) <==> Nonempty(b)
  {
    assert forall x :: x in a <==> x in multiset(a);
    assert forall x :: x in b <==> x in multiset(b);
    forall k | 0 <= k < |a| ensures a[k] in b { assert a[k] in multiset(a); }
    forall k | 0 <= k < |b| ensures b[k] in a { assert b[k] in multiset(b); }
  }

  /** `_merge`: the maximal stretches of the union. */
  method Merge(intervals: seq<Interval>) returns (merged: seq<Interval>)
    requires Nonempty(intervals)
    ensures Separated(merged)
    ensures forall t :: Covered(merged, t) <==> Covered(intervals, t)
  {
    if intervals == [] {
      return [];
    }
    var ordered := SortByStart(intervals);
    SameCover(ordered, intervals);
    merged := MergeSorted(ordered);
  }

  /** Its loop. */
  method MergeSorted(ordered: seq<Interval>) returns (merged: seq<Interval>)
    requires ordered != [] && Sorted(ordered) && Nonempty(ordered)
    ensures Separated(merged)
    ensures forall t :: Covered(merged, t) <==> Covered(ordered, t)
  {
    merged := [ordered[0]];
    assert merged == ordered[..1];
    for i := 1 to |ordered|
      invariant merged != [] && Separated(merged)
      invariant merged[|merged| - 1].start <= ordered[i - 1].start
      invariant forall t :: Covered(merged, t) <==> Covered(ordered[..i], t)
    {
      var last, current := merged[|merged| - 1], ordered[i];
      assert ordered[i - 1].start <= current.start;
      AbsorbStretches(merged, current);
      ghost var absorbed := Absorb(merged, current);
      forall t ensures Covered(absorbed, t) <==> Covered(ordered[..i + 1], t) {
        AbsorbCovers(merged, current, t);
        CoveredStep(ordered, i, t);
      }
      if current.start <= last.end {
        var end := if last.end >= current.end then last.end else current.end;
        merged := merged[|merged| - 1 := Interval(last.start, end)];
      } else {
        merged := merged + [current];
      }
      assert merged == absorbed;
    }
    assert ordered[..|ordered|] == ordered;
  }

  function Absorb(merged: seq<Interval>, current: Interval): seq<Interval>
    requires merged != []
  {
    var n := |merged| - 1;
    var last := merged[n];
    if current.start <= last.end
    then merged[..n] + [Interval(last.start, if last.end >= current.end then last.end else current.end)]
    else merged + [current]
  }

  lemma AbsorbStretches(merged: seq<Interval>, current: Interval)
    requires merged != [] && Separated(merged) && current.start < current.end
    requires merged[|merged| - 1].start <= current.start
    ensures Separated(Absorb(merged, current))
    ensures Absorb(merged, current)[|Absorb(merged, current)| - 1].start <= current.start
  {
  }

  lemma AbsorbCovers(merged: seq<Interval>, current: Interval, t: Time)
    requires merged != [] && Separated(merged) && merged[|merged| - 1].start <= current.start
    ensures Covered(Absorb(merged, current), t) <==> Covered(merged, t) || current.Has(t)
  {
    var n, after := |merged| - 1, Absorb(merged, current);
    assert forall k | 0 <= k < n :: after[k] == merged[k];
    if Covered(after, t) {
      var k :| 0 <= k < |after| && after[k].Has(t);
      assert k >= n ==> merged[n].Has(t) || current.Has(t);
    }
    if Covered(merged, t) {
      var k :| 0 <= k < |merged| && merged[k].Has(t);
      assert after[k].Has(t);
    }
    if current.Has(t) {
      assert after[|after| - 1].Has(t);
    }
  }

  /** What has been put out lies before both pointers, and covers what both have passed. */
  ghost predicate Intersecting(left: seq<Interval>, right: seq<Interval>, i: nat, j: nat, out: seq<Interval>) {
    && i <= |left| && j <= |right| && Separated(out)
    && (out != [] && i < |left| && j < |right| ==>
          out[|out| - 1].end < left[i].start || out[|out| - 1].end < right[j].start)
    && forall t :: Covered(out, t) <==> BothSoFar(left, right, i, j, t)
  }

  lemma IntersectAdvance(left: seq<Interval>, right: seq<Interval>, i: nat, j: nat, out: seq<Interval>)
    requires Separated(left) && Separated(right) && i < |left| && j < |right|
    requires Intersecting(left, right, i, j, out)
    ensures var first := left[i].end <= right[j].end;
      Intersecting(left, right, if first then i + 1 else i, if first then j else j + 1, Common(out, left[i], right[j]))
  {
    CommonSeparated(out, left[i], right[j]);
    IntersectStep(left, right, i, j, out);
  }

  /** `_intersect`: two pointers over two lists of stretches; what both cover. */
  method Intersect(left: seq<Interval>, right: seq<Interval>) returns (out: seq<Interval>)
    requires Separated(left) && Separated(right)
    ensures Separated(out)
    ensures forall t :: Covered(out, t) <==> Covered(left, t) && Covered(right, t)
  {
    out := [];
    var i, j := 0, 0;
    IntersectStart(left, right);
    while i < |left| && j < |right|
      invariant 0 <= i <= |left| && 0 <= j <= |right|
      invariant Intersecting(left, right, i, j, out)
      decreases |left| - i + |right| - j
    {
      var start := if left[i].start >= right[j].start then left[i].start else right[j].start;
      var end := if left[i].end <= right[j].end then left[i].end else right[j].end;
      IntersectAdvance(left, right, i, j, out);
      ghost var common := Common(out, left[i], right[j]);
      if start < end {
        out := out + [Interval(start, end)];
      }
      assert out == common;
      if left[i].end <= right[j].end {
        i := i + 1;
      } else {
        j := j + 1;
      }
    }
    IntersectDone(left, right, i, j, out);
  }

  lemma IntersectStart(left: seq<Interval>, right: seq<Interval>)
    ensures Intersecting(left, right, 0, 0, [])
  {
  }

  lemma IntersectDone(left: seq<Interval>, right: seq<Interval>, i: nat, j: nat, out: seq<Interval>)
    requires Intersecting(left, right, i, j, out) && (i == |left| || j == |right|)
    ensures Separated(out) && forall t :: Covered(out, t) <==> Covered(left, t) && Covered(right, t)
  {
    assert left[..|left|] == left && right[..|right|] == right;
  }

  lemma IntersectStep(left: seq<Interval>, right: seq<Interval>, i: nat, j: nat, out: seq<Interval>)
    requires Separated(left) && Separated(right) && i < |left| && j < |right|
    requires forall t :: Covered(out, t) <==> BothSoFar(left, right, i, j, t)
    ensures var first := left[i].end <= right[j].end;
      forall t :: Covered(Common(out, left[i], right[j]), t) <==>
                  BothSoFar(left, right, if first then i + 1 else i, if first then j else j + 1, t)
  {
    BothStep(left, right, i, j);
    forall t ensures Covered(Common(out, left[i], right[j]), t) <==>
      Covered(out, t) || (left[i].Has(t) && right[j].Has(t))
    {
      CommonCovers(out, left[i], right[j], t);
    }
  }

  function Common(out: seq<Interval>, l: Interval, r: Interval): seq<Interval> {
    var start := if l.start >= r.start then l.start else r.start;
    var end := if l.end <= r.end then l.end else r.end;
    if start < end then out + [Interval(start, end)] else out
  }

  lemma CommonSeparated(out: seq<Interval>, l: Interval, r: Interval)
    requires Separated(out)
    requires out != [] ==> out[|out| - 1].end < l.start || out[|out| - 1].end < r.start
    ensures Separated(Common(out, l, r))
    ensures var c := Common(out, l, r);
      c == out || (c[|c| - 1].end <= l.end && c[|c| - 1].end <= r.end)
  {
  }

  lemma CommonCovers(out: seq<Interval>, l: Interval, r: Interval, t: Time)
    ensures Covered(Common(out, l, r), t) <==> Covered(out, t) || (l.Has(t) && r.Has(t))
  {
    var c := Common(out, l, r);
    if Covered(out, t) {
      var k :| 0 <= k < |out| && out[k].Has(t);
      assert c[k].Has(t);
    }
    if l.Has(t) && r.Has(t) {
      assert c[|c| - 1].Has(t);
    }
  }

  /** Covered by both, and by a stretch of either that a pointer has passed. */
  predicate BothSoFar(left: seq<Interval>, right: seq<Interval>, i: nat, j: nat, t: Time)
    requires i <= |left| && j <= |right|
  {
    Covered(left, t) && Covered(right, t) && (Covered(left[..i], t) || Covered(right[..j], t))
  }

  lemma CoveredStep(xs: seq<Interval>, i: nat, t: Time)
    requires i < |xs|
    ensures Covered(xs[..i + 1], t) <==> Covered(xs[..i], t) || xs[i].Has(t)
  {
    assert forall k | 0 <= k <= i :: xs[..i + 1][k] == xs[k];
    assert forall k | 0 <= k < i :: xs[..i][k] == xs[k];
  }

  /** An instant of the stretch that ends first lies in the other list only up to its pointer. */
  lemma OnlySoFar(ended: Interval, other: seq<Interval>, j: nat, t: Time)
    requires Separated(other) && j < |other| && ended.end <= other[j].end && ended.Has(t)
    ensures Covered(other, t) <==> Covered(other[..j], t) || other[j].Has(t)
  {
    CoveredStep(other, j, t);
    if Covered(other, t) {
      var k :| 0 <= k < |other| && other[k].Has(t);
      assert k <= j;
      assert other[..j + 1][k] == other[k];
    }
    if Covered(other[..j], t) {
      var k :| 0 <= k < j && other[..j][k].Has(t);
      assert other[k].Has(t);
    }
  }

  lemma BothStep(left: seq<Interval>, right: seq<Interval>, i: nat, j: nat)
    requires Separated(left) && Separated(right) && i < |left| && j < |right|
    ensures var first := left[i].end <= right[j].end;
      forall t :: BothSoFar(left, right, if first then i + 1 else i, if first then j else j + 1, t) <==>
                  BothSoFar(left, right, i, j, t) || (left[i].Has(t) && right[j].Has(t))
  {
    forall t
      ensures var first := left[i].end <= right[j].end;
        BothSoFar(left, right, if first then i + 1 else i, if first then j else j + 1, t) <==>
        BothSoFar(left, right, i, j, t) || (left[i].Has(t) && right[j].Has(t))
    {
      CoveredStep(left, i, t);
      CoveredStep(right, j, t);
      if left[i].Has(t) && left[i].end <= right[j].end {
        OnlySoFar(left[i], right, j, t);
      }
      if right[j].Has(t) && right[j].end < left[i].end {
        OnlySoFar(right[j], left, i, t);
      }
    }
  }

  // ----- One resource, one block -----

  datatype Candidate = Candidate(
    id: Resource, active: bool,
    elsewhere: bool, // pinned to another branch
    own: Option<seq<Interval>>, // its own opening times, if it has rules
    blocks: seq<Interval>) // its blocked periods

  /** The world as the engine is given it. Busy time is per resource. */
  datatype Inputs = Inputs(
    openings: seq<Interval>, // the branch's opening times
    closures: seq<Interval>, // the branch's blocked periods
    roles: seq<seq<Candidate>>, // candidates of each required role, roles in name order
    busy: map<Resource, seq<Interval>>)

  function BusyOf(inputs: Inputs, id: Resource): seq<Interval> {
    if id in inputs.busy then inputs.busy[id] else []
  }

  predicate ProperCandidate(c: Candidate) {
    Nonempty(c.blocks) && (c.own.Some? ==> Nonempty(c.own.value))
  }

  /** Periods end after they start, as their validation demands. */
  predicate ProperInputs(inputs: Inputs) {
    && Nonempty(inputs.openings) && Nonempty(inputs.closures)
    && (forall r, k | 0 <= r < |inputs.roles| && 0 <= k < |inputs.roles[r]| :: ProperCandidate(inputs.roles[r][k]))
    && (forall id | id in inputs.busy :: Nonempty(inputs.busy[id]))
  }

  /** At every instant of the block the branch and the resource are open, and the resource
      is neither blocked nor busy. */
  ghost predicate Usable(inputs: Inputs, c: Candidate, block: Interval) {
    && c.active
    && forall t | block.Has(t) ::
         && Covered(inputs.openings, t) && (c.own.Some? ==> Covered(c.own.value, t))
         && !Covered(c.blocks, t) && !Covered(BusyOf(inputs, c.id), t)
  }

  lemma EndIsUncovered(windows: seq<Interval>, k: nat)
    requires Separated(windows) && k < |windows|
    ensures !Covered(windows, windows[k].end)
  {
    forall m | 0 <= m < |windows| ensures !windows[m].Has(windows[k].end) {
      assert m < k ==> windows[m].end < windows[k].start;
      assert k < m ==> windows[k].end < windows[m].start;
    }
  }

  /** Inside one stretch is the same as covered throughout. */
  lemma InsideOneStretch(windows: seq<Interval>, block: Interval)
    requires Separated(windows) && block.start < block.end
    ensures (exists k :: 0 <= k < |windows| && windows[k].Contains(block))
       <==> (forall t | block.Has(t) :: Covered(windows, t))
  {
    if forall t | block.Has(t) :: Covered(windows, t) {
      assert block.Has(block.start);
      var k :| 0 <= k < |windows| && windows[k].Has(block.start);
      EndIsUncovered(windows, k);
      assert windows[k].end < block.end ==> block.Has(windows[k].end);
    }
  }

  lemma OverlapIsCommonInstant(a: Interval, b: Interval)
    requires a.start < a.end && b.start < b.end
    ensures a.Overlaps(b) <==> exists t :: a.Has(t) && b.Has(t)
  {
    if a.Overlaps(b) {
      var t := if a.start < b.start then b.start else a.start;
      assert a.Has(t) && b.Has(t);
    }
  }

  /** `any(x.overlaps(block) for x in xs)`. */
  method AnyOverlaps(xs: seq<Interval>, block: Interval) returns (any: bool)
    requires Nonempty(xs) && block.start < block.end
    ensures any <==> exists t :: block.Has(t) && Covered(xs, t)
  {
    any := false;
    for k := 0 to |xs|
      invariant forall m | 0 <= m < k :: !xs[m].Overlaps(block)
    {
      OverlapIsCommonInstant(xs[k], block);
      if xs[k].Overlaps(block) {
        return true;
      }
    }
    forall t | block.Has(t) ensures !Covered(xs, t) {
      forall m | 0 <= m < |xs| ensures !xs[m].Has(t) {
        OverlapIsCommonInstant(xs[m], block);
      }
    }
  }

  /** `_resource_free`. */
  method ResourceFree(inputs: Inputs, c: Candidate, block: Interval, openWindows: seq<Interval>)
    returns (free: bool)
    requires ProperInputs(inputs) && ProperCandidate(c) && block.start < block.end
    requires Separated(openWindows)
    requires forall t :: Covered(openWindows, t) <==>
      Covered(inputs.openings, t) && (c.own.Some? ==> Covered(c.own.value, t))
    ensures free <==> Usable(inputs, c, block)
  {
    if !c.active {
      return false;
    }
    var inside := false;
    for k := 0 to |openWindows|
      invariant inside <==> exists m :: 0 <= m < k && openWindows[m].Contains(block)
    {
      inside := inside || openWindows[k].Contains(block);
    }
    InsideOneStretch(openWindows, block);
    if !inside {
      return false;
    }
    var blocked := Merge(c.blocks);
    var meets := AnyOverlaps(blocked, block);
    if meets {
      return false;
    }
    meets := AnyOverlaps(BusyOf(inputs, c.id), block);
    return !meets;
  }
}
