/** The conversational-flow editor (frontend/src/components/FlowSectionsEditor.tsx): an
    ordered list of sections, and which of them are expanded, tracked by position. */
module FlowSections {

  datatype Section = Section(title: string, body: string, enabled: bool)

  datatype Change = Title(title: string) | Body(body: string) | Enabled(enabled: bool)

  /** What the editor's controls do; Reset is the parent handing it the stock sections. */
  datatype Op =
    | Move(from: nat, to: int)
    | Toggle(index: nat)
    | Patch(index: nat, change: Change)
    | Remove(index: nat)
    | Add
    | Reset(sections: seq<Section>)

  datatype State = State(sections: seq<Section>, expanded: set<nat>)

  const NEW_SECTION := Section("New section", "", true)

  function Patched(s: Section, change: Change): Section {
    match change
    case Title(t) => s.(title := t)
    case Body(b) => s.(body := b)
    case Enabled(e) => s.(enabled := e)
  }

  function Without<T>(s: seq<T>, index: nat): seq<T>
    requires index < |s|
  {
    s[..index] + s[index + 1..]
  }

  /** Take the element at `from` out, then put it in at `to`. */
  function Moved<T>(s: seq<T>, from: nat, to: nat): seq<T>
    requires from < |s| && to < |s|
  {
    Without(s, from)[..to] + [s[from]] + Without(s, from)[to..]
  }

  /** Where the row at position i goes. */
  function Shift(from: nat, to: nat, i: nat): nat {
    if i == from then to
    else if from < i <= to then i - 1
    else if to <= i < from then i + 1
    else i
  }

  function ShiftAll(from: nat, to: nat, positions: set<nat>): set<nat> {
    set i | i in positions :: Shift(from, to, i)
  }

  /** The controls pass positions of rows that exist. */
  predicate InList(length: nat, op: Op) {
    match op
    case Move(from, _) => from < length
    case Toggle(index) => index < length
    case Patch(index, _) => index < length
    case Remove(index) => index < length
    case Add => true
    case Reset(_) => true
  }

  predicate Moves(s: State, op: Op) {
    op.Move? && 0 <= op.to < |s.sections| && op.from != op.to
  }

  function Flip<T>(x: T, xs: set<T>): set<T> {
    if x in xs then xs - {x} else xs + {x}
  }

  function Next(s: State, op: Op): State
    requires InList(|s.sections|, op)
  {
    match op
    case Move(from, to) =>
      if Moves(s, op) then State(Moved(s.sections, from, to), ShiftAll(from, to, s.expanded)) else s
    case Toggle(index) => s.(expanded := Flip(index, s.expanded))
    case Patch(index, change) => s.(sections := s.sections[index := Patched(s.sections[index], change)])
    case Remove(index) => State(Without(s.sections, index), {})
    case Add => State(s.sections + [NEW_SECTION], s.expanded + {|s.sections|})
    case Reset(sections) => s.(sections := sections)
  }

  // ----- One move -----

  /** The row at i goes to its shifted position. */
  lemma MovedAt<T>(s: seq<T>, from: nat, to: nat, i: nat)
    requires from < |s| && to < |s| && i < |s|
    ensures |Moved(s, from, to)| == |s| && Shift(from, to, i) < |s|
    ensures Moved(s, from, to)[Shift(from, to, i)] == s[i]
  {
  }

  /** Moving back undoes the shift, so it is a bijection on the positions. */
  lemma ShiftBack(from: nat, to: nat, i: nat)
    ensures Shift(to, from, Shift(from, to, i)) == i
  {
  }

  lemma ShiftOneMore(from: nat, to: nat, positions: set<nat>, i: nat)
    ensures ShiftAll(from, to, positions + {i}) == ShiftAll(from, to, positions) + {Shift(from, to, i)}
  {
  }

  lemma ShiftAllBack(from: nat, to: nat, positions: set<nat>)
    ensures ShiftAll(to, from, ShiftAll(from, to, positions)) == positions
  {
    var there := ShiftAll(from, to, positions);
    forall i: nat ensures i in ShiftAll(to, from, there) <==> i in positions {
      ShiftBack(from, to, i);
      if i in positions {
        assert Shift(from, to, i) in there;
      }
      if i in ShiftAll(to, from, there) {
        var j: nat :| j in there && Shift(to, from, j) == i;
        var k: nat :| k in positions && Shift(from, to, k) == j;
        ShiftBack(from, to, k);
      }
    }
  }

  lemma MoveBackRestores<T>(s: seq<T>, from: nat, to: nat)
    requires from < |s| && to < |s|
    ensures |Moved(s, from, to)| == |s| && Moved(Moved(s, from, to), to, from) == s
  {
    forall i: nat | i < |s| ensures Moved(Moved(s, from, to), to, from)[i] == s[i] {
      MovedAt(s, from, to, i);
      MovedAt(Moved(s, from, to), to, from, Shift(from, to, i));
      ShiftBack(from, to, i);
    }
  }

  lemma MovePermutes<T>(s: seq<T>, from: nat, to: nat)
    requires from < |s| && to < |s|
    ensures multiset(Moved(s, from, to)) == multiset(s)
  {
    var rest := Without(s, from);
    assert s == s[..from] + [s[from]] + s[from + 1..];
    assert rest == rest[..to] + rest[to..];
    calc {
      multiset(Moved(s, from, to));
      multiset(rest[..to]) + multiset([s[from]]) + multiset(rest[to..]);
      multiset(rest) + multiset([s[from]]);
      multiset(s[..from]) + multiset(s[from + 1..]) + multiset([s[from]]);
      multiset(s);
    }
  }

  /** A move and the move back leave sections and expansion as they were. */
  lemma MoveIsUndone(s: State, from: nat, to: nat)
    requires from < |s.sections| && to < |s.sections|
    ensures InList(|Next(s, Move(from, to)).sections|, Move(to, from))
    ensures Next(Next(s, Move(from, to)), Move(to, from)) == s
  {
    MoveBackRestores(s.sections, from, to);
    ShiftAllBack(from, to, s.expanded);
  }

  // ----- The other controls, position by position -----

  lemma ToggleFlipsOne(s: State, index: nat, i: nat)
    requires index < |s.sections|
    ensures var n := Next(s, Toggle(index));
      && n.sections == s.sections
      && (i != index ==> (i in n.expanded <==> i in s.expanded)) && (index in n.expanded <==> index !in s.expanded)
  {
  }

  /** An edit changes one field of one section. */
  lemma PatchChangesOne(s: State, index: nat, change: Change, i: nat)
    requires index < |s.sections| && i < |s.sections|
    ensures var n := Next(s, Patch(index, change));
      && |n.sections| == |s.sections| && n.expanded == s.expanded
      && (i != index ==> n.sections[i] == s.sections[i])
      && var now, was := n.sections[index], s.sections[index];
         && now.title == (if change.Title? then change.title else was.title)
         && now.body == (if change.Body? then change.body else was.body)
         && now.enabled == (if change.Enabled? then change.enabled else was.enabled)
  {
  }

  /** Removing closes the gap, and closes every row. */
  lemma RemoveDropsOne(s: State, index: nat, i: nat)
    requires index < |s.sections| && i < |s.sections| - 1
    ensures var n := Next(s, Remove(index));
      && |n.sections| == |s.sections| - 1 && n.expanded == {}
      && n.sections[i] == if i < index then s.sections[i] else s.sections[i + 1]
  {
  }

  /** A new section comes last, switched on, without text, and open. */
  lemma AddAppendsOne(s: State)
    ensures var n := Next(s, Add);
      && |n.sections| == |s.sections| + 1 && s.sections < n.sections
      && n.sections[|s.sections|] == Section("New section", "", true)
      && |s.sections| in n.expanded && forall i | i != |s.sections| :: i in n.expanded <==> i in s.expanded
  {
  }

  // ----- Runs -----

  ghost predicate Runs(s: State, ops: seq<Op>)
    decreases |ops|
  {
    ops == [] || (InList(|s.sections|, ops[0]) && Runs(Next(s, ops[0]), ops[1..]))
  }

  predicate InRange(s: State) { forall i | i in s.expanded :: i < |s.sections| }

  /** The replacing list reaches every expanded position. */
  predicate Fits(s: State, op: Op) {
    op.Reset? ==> forall i | i in s.expanded :: i < |op.sections|
  }

  lemma StepInRange(s: State, op: Op)
    requires InRange(s) && InList(|s.sections|, op)
    ensures InRange(Next(s, op)) <==> Fits(s, op)
  {
    if Moves(s, op) {
      forall j | j in Next(s, op).expanded ensures j < |s.sections| {
        var i: nat :| i in s.expanded && Shift(op.from, op.to, i) == j;
        MovedAt(s.sections, op.from, op.to, i);
      }
    }
  }

  ghost predicate AlwaysInRange(s: State, ops: seq<Op>)
    requires Runs(s, ops)
    decreases |ops|
  {
    InRange(s) && (ops == [] || AlwaysInRange(Next(s, ops[0]), ops[1..]))
  }

  ghost predicate EveryResetFits(s: State, ops: seq<Op>)
    requires Runs(s, ops)
    decreases |ops|
  {
    ops == [] || (Fits(s, ops[0]) && EveryResetFits(Next(s, ops[0]), ops[1..]))
  }

  /** Moves, toggles, edits, removals and additions never take the expanded positions out of
      range; a run does so exactly when some reset hands over too short a list. */
  lemma {:induction false} WhenExpansionStaysInRange(s: State, ops: seq<Op>)
    requires InRange(s) && Runs(s, ops)
    ensures AlwaysInRange(s, ops) <==> EveryResetFits(s, ops)
    decreases |ops|
  {
    if ops != [] {
      StepInRange(s, ops[0]);
      if Fits(s, ops[0]) {
        WhenExpansionStaysInRange(Next(s, ops[0]), ops[1..]);
      } else {
        assert !AlwaysInRange(Next(s, ops[0]), ops[1..]);
      }
    }
  }

  // ----- Tracking by identity -----

  datatype Row = Row(id: nat, section: Section)

  /** The editor as a user sees it: each row is itself wherever it goes, and it is rows, not
      positions, that are open. */
  datatype Ideal = Ideal(rows: seq<Row>, open: set<nat>, unused: nat)

  ghost function IdealNext(v: Ideal, op: Op): Ideal
    requires InList(|v.rows|, op)
  {
    match op
    case Move(from, to) => if 0 <= to < |v.rows| then v.(rows := Moved(v.rows, from, to)) else v
    case Toggle(index) => v.(open := Flip(v.rows[index].id, v.open))
    case Patch(index, change) =>
      v.(rows := v.rows[index := v.rows[index].(section := Patched(v.rows[index].section, change))])
    case Remove(index) => v.(rows := Without(v.rows, index), open := {})
    case Add => Ideal(v.rows + [Row(v.unused, NEW_SECTION)], v.open + {v.unused}, v.unused + 1)
    case Reset(sections) =>
      var rows := seq(|sections|, i requires 0 <= i < |sections| => Row(v.unused + i, sections[i]));
      Ideal(rows, {}, v.unused + |sections|)
  }

  predicate WellFormed(v: Ideal) {
    && (forall i, j | 0 <= i < j < |v.rows| :: v.rows[i].id != v.rows[j].id)
    && (forall i | 0 <= i < |v.rows| :: v.rows[i].id < v.unused)
    && (forall id | id in v.open :: id < v.unused)
  }

  /** New sections are new rows, all closed. */
  lemma ResetGivesNewRows(v: Ideal, sections: seq<Section>, i: nat)
    requires WellFormed(v) && i < |sections|
    ensures var n := IdealNext(v, Reset(sections));
      && |n.rows| == |sections| && n.rows[i].section == sections[i] && n.open == {}
      && forall row | row in v.rows :: row.id != n.rows[i].id
  {
  }

  /** The positions show the very sections, open and closed, that the rows do. */
  predicate Shows(s: State, v: Ideal) {
    && |s.sections| == |v.rows|
    && (forall i | 0 <= i < |v.rows| :: s.sections[i] == v.rows[i].section)
    && (forall i: nat | i < |v.rows| :: i in s.expanded <==> v.rows[i].id in v.open)
  }

  /** A reset clears nothing: it agrees with the rows only if no kept position was open. */
  predicate Clean(s: State, op: Op) {
    op.Reset? ==> forall i | i in s.expanded :: |op.sections| <= i
  }

  lemma MoveKeepsRows(s: State, v: Ideal, from: nat, to: nat)
    requires WellFormed(v) && Shows(s, v) && from < |v.rows| && to < |v.rows| && from != to
    ensures WellFormed(IdealNext(v, Move(from, to))) && Shows(Next(s, Move(from, to)), IdealNext(v, Move(from, to)))
  {
    var s', v' := Next(s, Move(from, to)), IdealNext(v, Move(from, to));
    forall j: nat | j < |v.rows|
      ensures Shift(to, from, j) < |v.rows| && v'.rows[j] == v.rows[Shift(to, from, j)]
      ensures s'.sections[j] == v'.rows[j].section
      ensures j in s'.expanded <==> v'.rows[j].id in v'.open
    {
      var i := Shift(to, from, j);
      ShiftBack(to, from, j);
      MovedAt(v.rows, to, from, j);
      MovedAt(v.rows, from, to, i);
      MovedAt(s.sections, from, to, i);
      assert j in s'.expanded <==> i in s.expanded by {
        if j in s'.expanded {
          var k: nat :| k in s.expanded && Shift(from, to, k) == j;
          ShiftBack(from, to, k);
        }
      }
    }
    forall i, j | 0 <= i < j < |v.rows| ensures v'.rows[i].id != v'.rows[j].id {
      ShiftBack(to, from, i);
      ShiftBack(to, from, j);
      assert Shift(to, from, i) != Shift(to, from, j);
    }
  }

  lemma RemoveKeepsRows(s: State, v: Ideal, index: nat)
    requires WellFormed(v) && Shows(s, v) && index < |v.rows|
    ensures WellFormed(IdealNext(v, Remove(index))) && Shows(Next(s, Remove(index)), IdealNext(v, Remove(index)))
  {
    var s', v' := Next(s, Remove(index)), IdealNext(v, Remove(index));
    forall i | 0 <= i < |v'.rows|
      ensures v'.rows[i] == v.rows[if i < index then i else i + 1] && s'.sections[i] == v'.rows[i].section
    {
    }
  }

  lemma AddKeepsRows(s: State, v: Ideal)
    requires WellFormed(v) && Shows(s, v)
    ensures WellFormed(IdealNext(v, Add)) && Shows(Next(s, Add), IdealNext(v, Add))
  {
    var s', v' := Next(s, Add), IdealNext(v, Add);
    forall i: nat | i < |v'.rows|
      ensures i < |v.rows| ==> v'.rows[i] == v.rows[i] && s'.sections[i] == s.sections[i]
      ensures i in s'.expanded <==> v'.rows[i].id in v'.open
    {
    }
  }

  lemma EditKeepsRows(s: State, v: Ideal, op: Op)
    requires WellFormed(v) && Shows(s, v) && InList(|v.rows|, op) && (op.Toggle? || op.Patch?)
    ensures WellFormed(IdealNext(v, op)) && Shows(Next(s, op), IdealNext(v, op))
  {
  }

  lemma ResetShows(s: State, v: Ideal, sections: seq<Section>)
    requires WellFormed(v) && Shows(s, v)
    ensures WellFormed(IdealNext(v, Reset(sections)))
    ensures Shows(Next(s, Reset(sections)), IdealNext(v, Reset(sections))) <==> Clean(s, Reset(sections))
  {
    var v' := IdealNext(v, Reset(sections));
    forall i | 0 <= i < |sections| ensures v'.rows[i].id !in v'.open {
    }
  }

  lemma StepShows(s: State, v: Ideal, op: Op)
    requires WellFormed(v) && Shows(s, v) && InList(|s.sections|, op)
    ensures WellFormed(IdealNext(v, op))
    ensures Shows(Next(s, op), IdealNext(v, op)) <==> Clean(s, op)
  {
    match op
    case Move(from, to) =>
      if Moves(s, op) {
        MoveKeepsRows(s, v, from, to);
      } else if from == to {
        assert Moved(v.rows, from, to) == v.rows;
      }
    case Toggle(_) => EditKeepsRows(s, v, op);
    case Patch(_, _) => EditKeepsRows(s, v, op);
    case Remove(index) => RemoveKeepsRows(s, v, index);
    case Add => AddKeepsRows(s, v);
    case Reset(sections) => ResetShows(s, v, sections);
  }

  ghost predicate AlwaysShows(s: State, v: Ideal, ops: seq<Op>)
    requires Shows(s, v) && Runs(s, ops)
    decreases |ops|
  {
    ops == [] ||
    (Shows(Next(s, ops[0]), IdealNext(v, ops[0])) && AlwaysShows(Next(s, ops[0]), IdealNext(v, ops[0]), ops[1..]))
  }

  ghost predicate EveryResetIsClean(s: State, ops: seq<Op>)
    requires Runs(s, ops)
    decreases |ops|
  {
    ops == [] || (Clean(s, ops[0]) && EveryResetIsClean(Next(s, ops[0]), ops[1..]))
  }

  /** Position tracking refines row tracking over every run exactly when no reset meets a
      position that stays in the list while expanded: in particular moves, in any number and
      mixed with everything else, keep exactly the same sections open. */
  lemma {:induction false} WhenPositionsFollowRows(s: State, v: Ideal, ops: seq<Op>)
    requires WellFormed(v) && Shows(s, v) && Runs(s, ops)
    ensures AlwaysShows(s, v, ops) <==> EveryResetIsClean(s, ops)
    decreases |ops|
  {
    if ops != [] {
      StepShows(s, v, ops[0]);
      if Clean(s, ops[0]) {
        WhenPositionsFollowRows(Next(s, ops[0]), IdealNext(v, ops[0]), ops[1..]);
      }
    }
  }

  /** A reset with the first section open shows the new first section open. */
  lemma ResetReopens(first: Section, stock: Section)
    ensures var s := State([first], {0}); Next(s, Reset([stock])).expanded == {0} && !Clean(s, Reset([stock]))
  {
    assert 0 in State([first], {0}).expanded;
  }

  // ----- The component -----

  lemma ViewStep(s: State, v: Ideal, op: Op)
    requires WellFormed(v) && Shows(s, v) && InRange(s) && InList(|s.sections|, op) && !op.Reset?
    ensures WellFormed(IdealNext(v, op)) && Shows(Next(s, op), IdealNext(v, op)) && InRange(Next(s, op))
  {
    StepShows(s, v, op);
    StepInRange(s, op);
  }

  lemma MoveInView(v: Ideal, from: nat, to: int)
    requires from < |v.rows|
    ensures var n := IdealNext(v, Move(from, to));
      && n.open == v.open && multiset(n.rows) == multiset(v.rows) && |n.rows| == |v.rows|
      && (0 <= to < |v.rows| ==> n.rows[to] == v.rows[from])
  {
    if 0 <= to < |v.rows| {
      MovePermutes(v.rows, from, to);
      MovedAt(v.rows, from, to, from);
    }
  }

  /** The component tracks positions; `view` is what its user sees, row by row. Every control
      keeps the two together, and does to the view what it says. */
  class FlowSectionsEditor {
    var sections: seq<Section>
    var expanded: set<nat>
    ghost var view: Ideal

    ghost function Abs(): State
      reads this
    {
      State(sections, expanded)
    }

    ghost predicate Valid()
      reads this
    {
      WellFormed(view) && Shows(Abs(), view) && InRange(Abs())
    }

    constructor (sections: seq<Section>)
      ensures Valid() && Abs() == State(sections, {}) && view.open == {}
    {
      this.sections, expanded := sections, {};
      view := IdealNext(Ideal([], {}, 0), Reset(sections));
    }

    /** Opens a closed row or closes an open one, and no other row. */
    method ToggleExpanded(index: nat)
      requires Valid() && index < |sections|
      modifies this`expanded, this`view
      ensures Valid() && Abs() == Next(old(Abs()), Toggle(index))
      ensures view == IdealNext(old(view), Toggle(index))
      ensures forall id | id != view.rows[index].id :: id in view.open <==> id in old(view).open
      ensures view.rows[index].id in view.open <==> view.rows[index].id !in old(view).open
    {
      ghost var s, v := Abs(), view;
      var next := expanded;
      if index in next {
        next := next - {index};
      } else {
        next := next + {index};
      }
      expanded := next;
      view := IdealNext(v, Toggle(index));
      assert Abs() == Next(s, Toggle(index));
      ViewStep(s, v, Toggle(index));
    }

    /** Changes one row in place; every row stays as open or closed as it was. */
    method PatchSection(index: nat, change: Change)
      requires Valid() && index < |sections|
      modifies this`sections, this`view
      ensures Valid() && Abs() == Next(old(Abs()), Patch(index, change))
      ensures view == IdealNext(old(view), Patch(index, change))
      ensures view.open == old(view).open && view.rows[index].id == old(view).rows[index].id
    {
      ghost var s, v := Abs(), view;
      sections := seq(|sections|, i requires 0 <= i < |sections| reads this =>
        if i == index then Patched(sections[i], change) else sections[i]);
      view := IdealNext(v, Patch(index, change));
      assert Abs() == Next(s, Patch(index, change));
      ViewStep(s, v, Patch(index, change));
    }

    /** Moves a row; the same rows, each as open or closed as it was. */
    method MoveSection(from: nat, to: int)
      requires Valid() && from < |sections|
      modifies this
      ensures Valid() && Abs() == Next(old(Abs()), Move(from, to))
      ensures view == IdealNext(old(view), Move(from, to))
      ensures view.open == old(view).open && multiset(view.rows) == multiset(old(view).rows)
      ensures 0 <= to < |old(sections)| ==> |view.rows| > to && view.rows[to] == old(view).rows[from]
    {
      ghost var s, v := Abs(), view;
      view := IdealNext(v, Move(from, to));
      ViewStep(s, v, Move(from, to));
      MoveInView(v, from, to);
      if to < 0 || to >= |sections| || from == to {
        return;
      }
      var next := sections;
      var moved := next[from];
      next := next[..from] + next[from + 1..];
      next := next[..to] + [moved] + next[to..];
      sections := next;
      expanded := Shifted(from, to, expanded);
      assert Abs() == Next(s, Move(from, to));
    }

    /** The updater `move` gives to setExpanded; a set has no order to depend on here. */
    static method Shifted(from: nat, to: nat, prev: set<nat>) returns (shifted: set<nat>)
      ensures shifted == ShiftAll(from, to, prev)
    {
      shifted := {};
      var rest := prev;
      while rest != {}
        invariant rest <= prev
        invariant shifted == ShiftAll(from, to, prev - rest)
        decreases |rest|
      {
        var i :| i in rest;
        ShiftOneMore(from, to, prev - rest, i);
        rest := rest - {i};
        assert prev - rest == prev - (rest + {i}) + {i};
        if i == from {
          shifted := shifted + {to};
        } else if from < i && i <= to {
          shifted := shifted + {i - 1};
        } else if to <= i && i < from {
          shifted := shifted + {i + 1};
        } else {
          shifted := shifted + {i};
        }
      }
      assert prev - rest == prev;
    }

    /** `sections.filter((_, i) => i !== index)`: one row goes, and all rows close. */
    method RemoveSection(index: nat)
      requires Valid() && index < |sections|
      modifies this
      ensures Valid() && Abs() == Next(old(Abs()), Remove(index))
      ensures view == IdealNext(old(view), Remove(index))
    {
      ghost var s, v := Abs(), view;
      sections := Filtered(sections, index);
      expanded := {};
      view := IdealNext(v, Remove(index));
      assert Abs() == Next(s, Remove(index));
      ViewStep(s, v, Remove(index));
    }

    static method Filtered(sections: seq<Section>, index: nat) returns (kept: seq<Section>)
      requires index < |sections|
      ensures kept == Without(sections, index)
    {
      kept := [];
      for i := 0 to |sections|
        invariant kept == if i <= index then sections[..i] else Without(sections, index)[..i - 1]
      {
        if i != index {
          kept := kept + [sections[i]];
        }
      }
    }

    /** A row never seen before, last and open; every other row as it was. */
    method AddSection()
      requires Valid()
      modifies this
      ensures Valid() && Abs() == Next(old(Abs()), Add)
      ensures view == IdealNext(old(view), Add)
      ensures exists id ::
        && id !in old(view).open && (forall row | row in old(view).rows :: row.id != id)
        && view.rows == old(view).rows + [Row(id, NEW_SECTION)] && view.open == old(view).open + {id}
    {
      ghost var s, v := Abs(), view;
      expanded := expanded + {|sections|};
      sections := sections + [NEW_SECTION];
      view := IdealNext(v, Add);
      assert Abs() == Next(s, Add);
      ViewStep(s, v, Add);
    }
  }
}
