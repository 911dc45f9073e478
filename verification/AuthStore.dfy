/** The key-value table behind a WhatsApp session's credentials
    (whatsapp-bridge/src/authStore.js). A row holds the value its text deserialises to. */
module AuthStore {
  import opened Basics

  /** A JavaScript value as `typeof` and truthiness see it. */
  datatype Value = Null | Object(id: int) | Array(id: int) | Scalar(truthy: bool, id: int)
  {
    predicate Truthy() { Object? || Array? || (Scalar? && truthy) }
  }

  type Row = (string, string) // session_id, key
  type Table = map<Row, Value>

  datatype Statement = Upsert(row: Row, value: Value) | Delete(row: Row)

  function Apply(table: Table, st: Statement): Table {
    match st
    case Upsert(row, value) => table[row := value]
    case Delete(row) => table - {row}
  }

  const CREDS := "creds"

  /** `${type}-${id}`. */
  function Joined(kind: string, id: string): string { kind + "-" + id }

  /** The creds row is not the row of any (type, id). */
  lemma JoinedIsNotCreds(kind: string, id: string)
    ensures Joined(kind, id) != "creds" == CREDS
  {
    assert Joined(kind, id)[|kind|] == '-';
    assert forall i | 0 <= i < |CREDS| :: CREDS[i] != '-';
  }

  /** Two pairs join to one key exactly when they are the same, or the longer type goes on with a
      dash where the other's id begins: its dash and the rest are the beginning of that id. */
  lemma WhenJoinedCollide(a: string, i: string, b: string, j: string)
    requires |a| <= |b|
    ensures Joined(a, i) == Joined(b, j) <==>
      (a == b && i == j) || exists rest :: b == a + "-" + rest && i == rest + "-" + j
  {
    var left, right := a + "-" + i, b + "-" + j;
    assert left == Joined(a, i) && right == Joined(b, j);
    if rest :| b == a + "-" + rest && i == rest + "-" + j {
      assert right == a + "-" + rest + "-" + j == left;
    }
    if left == right {
      assert a == left[..|a|] == right[..|a|] == b[..|a|];
      if |a| < |b| {
        assert b[|a|] == right[|a|] == left[|a|] == '-';
        var rest := b[|a| + 1..];
        assert b == a + "-" + rest;
        assert left[|a| + 1..] == i && right[|a| + 1..] == rest + "-" + j;
      } else {
        assert left[|a| + 1..] == i && right[|a| + 1..] == j;
      }
    }
  }

  // ----- One statement, retried -----

  /** What one attempt at a statement does. */
  datatype Attempt =
    | Done
    | Lost(effect: bool) // the connection broke, after or before the statement took effect
    | Failed // any other error: thrown at once

  const ATTEMPTS := 3

  /** The database as the bridge's calls leave it. */
  class Store {
    var table: Table

    constructor ()
      ensures table == map[]
    {
      table := map[];
    }

    /** The retry loop of `query`, the environment choosing each attempt's fate. */
    method Query(st: Statement, fate: seq<Attempt>) returns (returned: bool)
      requires |fate| == ATTEMPTS
      modifies this
      ensures returned <==> exists i :: 0 <= i < ATTEMPTS && fate[i].Done? && forall j | 0 <= j < i :: fate[j].Lost?
      ensures returned ==> table == Apply(old(table), st)
      ensures !returned ==> table == old(table) || table == Apply(old(table), st)
    {
      var attempt := 1;
      while attempt <= ATTEMPTS
        invariant 1 <= attempt <= ATTEMPTS + 1
        invariant forall j | 0 <= j < attempt - 1 :: fate[j].Lost?
        invariant table == old(table) || table == Apply(old(table), st)
      {
        var now := fate[attempt - 1];
        if now.Done? {
          ApplyTwice(old(table), st);
          table := Apply(table, st);
          return true;
        }
        if now.Failed? {
          return false;
        }
        if now.effect {
          ApplyTwice(old(table), st);
          table := Apply(table, st);
        }
        attempt := attempt + 1;
      }
      return false;
    }

    /** `keys.set`: the loops that collect the writes, then all their retry loops at once, until
        each has ended. The call returns exactly when every write did; then the table is what
        writing in order makes it, unless two writes disagree on a row. */
    method SetKeys(sid: string, entries: seq<Entry>, tries: seq<Try>) returns (returned: bool)
      requires TriesRun(Begin(table, |entries|), Writes(sid, entries), tries)
      requires AllEnded(TriesAfter(Begin(table, |entries|), Writes(sid, entries), tries))
      modifies this
      ensures returned <==> AllReturned(TriesAfter(Begin(old(table), |entries|), Writes(sid, entries), tries))
      ensures table == TriesAfter(Begin(old(table), |entries|), Writes(sid, entries), tries).table
      ensures returned && SameRowSameStatement(Writes(sid, entries)) ==>
        table == InOrder(old(table), Writes(sid, entries))
      ensures forall row | Untouched(Writes(sid, entries), row) :: Agree(table, old(table), row)
    {
      var writes: seq<Statement> := [];
      for i := 0 to |entries|
        invariant writes == Writes(sid, entries[..i])
      {
        var e := entries[i];
        var row := (sid, Joined(e.kind, e.id));
        assert entries[..i + 1][..i] == entries[..i];
        writes := writes + [if e.value.Truthy() then Upsert(row, e.value) else Delete(row)];
      }
      assert entries[..|entries|] == entries;
      var first := Begin(table, |entries|);
      var r := first;
      for n := 0 to |tries|
        invariant |r.loops| == |writes| && TriesRun(r, writes, tries[n..])
        invariant TriesAfter(r, writes, tries[n..]) == TriesAfter(first, writes, tries)
      {
        assert tries[n..][0] == tries[n] && tries[n..][1..] == tries[n + 1..];
        r := TryNext(r, writes, tries[n]);
      }
      assert tries[|tries|..] == [];
      SettledWrites(table, writes, tries);
      table := r.table;
      returned := forall i | 0 <= i < |r.loops| :: r.loops[i].Returned?;
    }

    /** `keys.get`: reads of all ids at once; a damaged row is deleted, and reads as absent. */
    method GetKeys(sid: string, kind: string, ids: seq<string>, schedule: seq<GetStep>)
      returns (result: map<string, Found>)
      requires GetRuns(Reading(table, map[], {}), sid, kind, ids, schedule)
      requires GetDone(GetAfter(Reading(table, map[], {}), sid, kind, ids, schedule), ids)
      modifies this
      ensures result == Kept(old(table), sid, kind, ids)
      ensures table == old(table) - DamagedRows(old(table), sid, kind, ids)
    {
      var reading := Reading(table, map[], {});
      for n := 0 to |schedule|
        invariant GetRuns(reading, sid, kind, ids, schedule[n..])
        invariant GetAfter(reading, sid, kind, ids, schedule[n..])
               == GetAfter(Reading(old(table), map[], {}), sid, kind, ids, schedule)
      {
        assert schedule[n..][0] == schedule[n] && schedule[n..][1..] == schedule[n + 1..];
        reading := GetNext(reading, sid, kind, ids, schedule[n]);
      }
      assert schedule[|schedule|..] == [];
      GetIsAtomic(old(table), sid, kind, ids, schedule);
      table := reading.table;
      result := Collect(old(table), sid, kind, ids, reading.got);
    }

    /** `if (value) result[id] = value`, for every id read. */
    static method Collect(ghost table: Table, sid: string, kind: string, ids: seq<string>, got: map<nat, Option<Value>>)
      returns (result: map<string, Found>)
      requires forall i: nat | i < |ids| :: i in got && Sees(got[i], Lookup(table, RowOf(sid, kind, ids[i])))
      ensures result == Kept(table, sid, kind, ids)
    {
      result := map[];
      for i := 0 to |ids|
        invariant result == Kept(table, sid, kind, ids[..i])
      {
        assert ids[..i + 1] == ids[..i] + [ids[i]];
        assert Sees(got[i], Lookup(table, RowOf(sid, kind, ids[i])));
        match got[i]
        case Some(value) =>
          if value.Object? || value.Array? {
            result := result[ids[i] := if kind == PROTO then Protobuf(value) else Plain(value)];
          }
        case None =>
      }
      assert ids[..|ids|] == ids;
    }

    /** The opening of useDbAuthState: damaged credentials are deleted and made anew. */
    method LoadCreds(sid: string, initial: Value) returns (creds: Value)
      requires initial.Object?
      modifies this
      ensures creds.Object?
      ensures var row := (sid, CREDS);
        row == (sid, "creds") &&
        if row in old(table) && old(table)[row].Object? then creds == old(table)[row] && table == old(table)
        else creds == initial &&
             table == if row in old(table) && old(table)[row].Null? then old(table) else old(table) - {row}
    {
      var row := (sid, CREDS);
      creds := if row in table then table[row] else Null;
      assert row !in table ==> table - {row} == table;
      if !creds.Null? && !creds.Object? {
        table := table - {row};
        creds := Null;
      }
      if creds.Null? {
        creds := initial;
      }
    }
  }

  lemma ApplyTwice(table: Table, st: Statement)
    ensures Apply(Apply(table, st), st) == Apply(table, st)
  {
  }

  // ----- Many statements at once -----

  datatype Entry = Entry(kind: string, id: string, value: Value)

  function Write(sid: string, e: Entry): Statement {
    var row := (sid, Joined(e.kind, e.id));
    if e.value.Truthy() then Upsert(row, e.value) else Delete(row)
  }

  function Writes(sid: string, entries: seq<Entry>): (sts: seq<Statement>)
    ensures |sts| == |entries|
    ensures forall i | 0 <= i < |entries| :: sts[i] == Write(sid, entries[i])
  {
    if entries == [] then []
    else Writes(sid, entries[..|entries| - 1]) + [Write(sid, entries[|entries| - 1])]
  }

  /** What is false in JavaScript is deleted: null, and a number, string or boolean that is; every
      object and array is written. */
  lemma WhatIsWritten(sid: string, e: Entry)
    ensures Write(sid, e) ==
      match e.value
      case Null => Delete((sid, e.kind + "-" + e.id))
      case Object(_) => Upsert((sid, e.kind + "-" + e.id), e.value)
      case Array(_) => Upsert((sid, e.kind + "-" + e.id), e.value)
      case Scalar(true, _) => Upsert((sid, e.kind + "-" + e.id), e.value)
      case Scalar(false, _) => Delete((sid, e.kind + "-" + e.id))
  {
  }

  /** Every statement returned, so took effect at least once. */
  predicate Complete(schedule: seq<nat>, n: nat) {
    && (forall j | 0 <= j < |schedule| :: schedule[j] < n)
    && (forall i | 0 <= i < n :: i in schedule)
  }

  function Effects(table: Table, sts: seq<Statement>, schedule: seq<nat>): Table
    requires forall j | 0 <= j < |schedule| :: schedule[j] < |sts|
  {
    if schedule == [] then table
    else
      var n := |schedule| - 1;
      Apply(Effects(table, sts, schedule[..n]), sts[schedule[n]])
  }

  function InOrder(table: Table, sts: seq<Statement>): Table {
    if sts == [] then table else Apply(InOrder(table, sts[..|sts| - 1]), sts[|sts| - 1])
  }

  predicate SameRowSameStatement(sts: seq<Statement>) {
    forall i, j | 0 <= i < |sts| && 0 <= j < |sts| && sts[i].row == sts[j].row :: sts[i] == sts[j]
  }

  /** What the table says about a row: absent, or present with a value. */
  predicate Says(table: Table, st: Statement) {
    match st
    case Upsert(row, value) => row in table && table[row] == value
    case Delete(row) => row !in table
  }

  predicate Agree(a: Table, b: Table, row: Row) {
    (row in a <==> row in b) && (row in a && row in b ==> a[row] == b[row])
  }

  predicate Untouched(sts: seq<Statement>, row: Row) {
    forall i | 0 <= i < |sts| :: sts[i].row != row
  }

  lemma {:induction false} EffectsDecide(table: Table, sts: seq<Statement>, schedule: seq<nat>)
    requires SameRowSameStatement(sts)
    requires forall j | 0 <= j < |schedule| :: schedule[j] < |sts|
    ensures forall i | 0 <= i < |sts| && i in schedule :: Says(Effects(table, sts, schedule), sts[i])
    ensures forall row | Untouched(sts, row) :: Agree(Effects(table, sts, schedule), table, row)
  {
    if schedule != [] {
      var n := |schedule| - 1;
      EffectsDecide(table, sts, schedule[..n]);
      assert schedule == schedule[..n] + [schedule[n]];
      forall row | Untouched(sts, row) ensures Agree(Effects(table, sts, schedule), table, row) {
        assert Agree(Effects(table, sts, schedule[..n]), table, row) && sts[schedule[n]].row != row;
      }
    }
  }

  lemma {:induction false} InOrderDecides(table: Table, sts: seq<Statement>)
    requires SameRowSameStatement(sts)
    ensures forall i | 0 <= i < |sts| :: Says(InOrder(table, sts), sts[i])
    ensures forall row | Untouched(sts, row) :: Agree(InOrder(table, sts), table, row)
  {
    if sts != [] {
      var init, last := sts[..|sts| - 1], sts[|sts| - 1];
      InOrderDecides(table, init);
      forall row | Untouched(sts, row) ensures Agree(InOrder(table, sts), table, row) {
        assert Untouched(init, row) && last.row != row;
      }
    }
  }

  ghost predicate OrderFree(sts: seq<Statement>) {
    forall table: Table, schedule | Complete(schedule, |sts|) ::
      Effects(table, sts, schedule) == InOrder(table, sts)
  }

  /** Parallel retried statements have one outcome, whatever the order and however often
      each took effect, exactly when no two of them write one row differently. */
  lemma WhenOrderDoesNotMatter(sts: seq<Statement>)
    ensures OrderFree(sts) <==> SameRowSameStatement(sts)
  {
    if SameRowSameStatement(sts) {
      forall table: Table, schedule | Complete(schedule, |sts|)
        ensures Effects(table, sts, schedule) == InOrder(table, sts)
      {
        ParallelIsInOrder(table, sts, schedule);
      }
    } else {
      var i, j :| 0 <= i < |sts| && 0 <= j < |sts| && sts[i].row == sts[j].row && sts[i] != sts[j];
      var all: seq<nat> := seq(|sts|, k => k);
      assert forall k | 0 <= k < |sts| :: all[k] == k;
      var a, b := all + [i], all + [j];
      forall k | 0 <= k < |sts| ensures k in a && k in b {
        assert all[k] in a && all[k] in b;
      }
      EffectsLast(map[], sts, a);
      EffectsLast(map[], sts, b);
      assert Complete(a, |sts|) && Complete(b, |sts|);
      assert Says(Effects(map[], sts, a), sts[i]) && Says(Effects(map[], sts, b), sts[j]);
    }
  }

  lemma EffectsLast(table: Table, sts: seq<Statement>, schedule: seq<nat>)
    requires schedule != [] && forall j | 0 <= j < |schedule| :: schedule[j] < |sts|
    ensures Says(Effects(table, sts, schedule), sts[schedule[|schedule| - 1]])
  {
  }

  lemma ParallelIsInOrder(table: Table, sts: seq<Statement>, schedule: seq<nat>)
    requires SameRowSameStatement(sts) && Complete(schedule, |sts|)
    ensures Effects(table, sts, schedule) == InOrder(table, sts)
  {
    EffectsDecide(table, sts, schedule);
    InOrderDecides(table, sts);
    var a, b := Effects(table, sts, schedule), InOrder(table, sts);
    forall row: Row ensures Agree(a, b, row) {
      if Untouched(sts, row) {
        assert Agree(a, table, row) && Agree(b, table, row);
      } else {
        var i :| 0 <= i < |sts| && sts[i].row == row;
        assert Says(a, sts[i]) && Says(b, sts[i]);
      }
    }
    SameEverywhere(a, b);
  }

  lemma SameEverywhere(a: Table, b: Table)
    requires forall row: Row :: Agree(a, b, row)
    ensures a == b
  {
    assert forall row :: row in a ==> Agree(a, b, row);
    assert forall row :: row in b ==> Agree(a, b, row);
  }

  lemma {:induction false} EffectsElsewhere(t: Table, sts: seq<Statement>, schedule: seq<nat>, row: Row)
    requires Untouched(sts, row) && forall j | 0 <= j < |schedule| :: schedule[j] < |sts|
    ensures Agree(Effects(t, sts, schedule), t, row)
  {
    if schedule != [] {
      EffectsElsewhere(t, sts, schedule[..|schedule| - 1], row);
    }
  }

  // ----- Parallel retry loops -----

  /** How far a retry loop is: tries lost so far, or its end. */
  datatype Loop = Trying(lost: nat) | Returned | Threw

  /** One attempt of the i-th loop, and its fate. */
  datatype Try = Try(i: nat, fate: Attempt)

  /** The table, the loops, and whose statement took effect, in order. */
  datatype Retries = Retries(table: Table, loops: seq<Loop>, effects: seq<nat>)

  function Begin(table: Table, n: nat): (r: Retries)
    ensures |r.loops| == n
  {
    Retries(table, seq(n, _ => Trying(0)), [])
  }

  predicate TryEnabled(r: Retries, t: Try) { t.i < |r.loops| && r.loops[t.i].Trying? }

  predicate TakesEffect(fate: Attempt) { fate.Done? || (fate.Lost? && fate.effect) }

  function TryNext(r: Retries, sts: seq<Statement>, t: Try): (next: Retries)
    requires |r.loops| == |sts| && TryEnabled(r, t)
    ensures |next.loops| == |sts|
  {
    var lost := r.loops[t.i].lost + 1;
    var loop :=
      match t.fate
      case Done => Returned
      case Lost(_) => if lost < ATTEMPTS then Trying(lost) else Threw
      case Failed => Threw;
    Retries(if TakesEffect(t.fate) then Apply(r.table, sts[t.i]) else r.table,
            r.loops[t.i := loop],
            if TakesEffect(t.fate) then r.effects + [t.i] else r.effects)
  }

  predicate TriesRun(r: Retries, sts: seq<Statement>, tries: seq<Try>)
    requires |r.loops| == |sts|
    decreases |tries|
  {
    tries == [] || (TryEnabled(r, tries[0]) && TriesRun(TryNext(r, sts, tries[0]), sts, tries[1..]))
  }

  function TriesAfter(r: Retries, sts: seq<Statement>, tries: seq<Try>): (after: Retries)
    requires |r.loops| == |sts| && TriesRun(r, sts, tries)
    ensures |after.loops| == |sts|
    decreases |tries|
  {
    if tries == [] then r else TriesAfter(TryNext(r, sts, tries[0]), sts, tries[1..])
  }

  predicate AllEnded(r: Retries) { forall i | 0 <= i < |r.loops| :: !r.loops[i].Trying? }

  predicate AllReturned(r: Retries) { forall i | 0 <= i < |r.loops| :: r.loops[i].Returned? }

  /** The table is what the effects make it; a loop that returned had its effect, and none
      has had more effects than tries, which are three at most. */
  ghost predicate TriesInv(r: Retries, table: Table, sts: seq<Statement>) {
    && |r.loops| == |sts|
    && (forall j | 0 <= j < |r.effects| :: r.effects[j] < |sts|)
    && r.table == Effects(table, sts, r.effects)
    && (forall i: nat | i < |sts| :: LoopRight(r.loops[i], multiset(r.effects)[i]))
  }

  predicate LoopRight(loop: Loop, taken: nat) {
    && (loop.Returned? ==> taken >= 1)
    && (loop.Trying? ==> taken <= loop.lost < ATTEMPTS)
    && taken <= ATTEMPTS
  }

  lemma OneEffectMore(effects: seq<nat>, i: nat)
    ensures forall k :: multiset(effects + [i])[k] == multiset(effects)[k] + if k == i then 1 else 0
    ensures forall k :: k in effects + [i] <==> k in effects || k == i
  {
    assert multiset(effects + [i]) == multiset(effects) + multiset{i};
  }

  lemma TryKeepsInv(r: Retries, table: Table, sts: seq<Statement>, t: Try)
    requires TriesInv(r, table, sts) && TryEnabled(r, t)
    ensures TriesInv(TryNext(r, sts, t), table, sts)
  {
    var next := TryNext(r, sts, t);
    if TakesEffect(t.fate) {
      assert (r.effects + [t.i])[..|r.effects|] == r.effects;
    }
    forall i: nat | i < |sts| ensures LoopRight(next.loops[i], multiset(next.effects)[i]) {
      TryKeepsLoop(r, sts, t, i);
    }
  }

  lemma TryKeepsLoop(r: Retries, sts: seq<Statement>, t: Try, i: nat)
    requires |r.loops| == |sts| && TryEnabled(r, t) && i < |sts|
    requires LoopRight(r.loops[i], multiset(r.effects)[i])
    ensures var next := TryNext(r, sts, t); LoopRight(next.loops[i], multiset(next.effects)[i])
  {
    OneEffectMore(r.effects, t.i);
  }

  lemma {:induction false} TriesKeepInv(r: Retries, table: Table, sts: seq<Statement>, tries: seq<Try>)
    requires TriesInv(r, table, sts) && TriesRun(r, sts, tries)
    ensures TriesInv(TriesAfter(r, sts, tries), table, sts)
    decreases |tries|
  {
    if tries != [] {
      TryKeepsInv(r, table, sts, tries[0]);
      TriesKeepInv(TryNext(r, sts, tries[0]), table, sts, tries[1..]);
    }
  }

  /** However the retry loops of several statements interleave: when all have returned, each
      statement took effect, three times at most. */
  lemma ReturnedWritesAreComplete(table: Table, sts: seq<Statement>, tries: seq<Try>)
    requires TriesRun(Begin(table, |sts|), sts, tries)
    requires AllReturned(TriesAfter(Begin(table, |sts|), sts, tries))
    ensures var r := TriesAfter(Begin(table, |sts|), sts, tries);
      && Complete(r.effects, |sts|) && r.table == Effects(table, sts, r.effects)
      && forall i: nat | i < |sts| :: 1 <= multiset(r.effects)[i] <= ATTEMPTS
  {
    TriesKeepInv(Begin(table, |sts|), table, sts, tries);
    var r := TriesAfter(Begin(table, |sts|), sts, tries);
    forall i: nat | i < |sts| ensures i in r.effects && 1 <= multiset(r.effects)[i] <= ATTEMPTS {
      assert r.loops[i].Returned? && LoopRight(r.loops[i], multiset(r.effects)[i]);
    }
  }

  /** So whatever the interleaving: returned writes make the table that writing in order
      makes, and rows of no write stay, returned or not. */
  lemma SettledWrites(table: Table, sts: seq<Statement>, tries: seq<Try>)
    requires TriesRun(Begin(table, |sts|), sts, tries)
    ensures var r := TriesAfter(Begin(table, |sts|), sts, tries);
      && (AllReturned(r) && SameRowSameStatement(sts) ==> r.table == InOrder(table, sts))
      && forall row | Untouched(sts, row) :: Agree(r.table, table, row)
  {
    var r := TriesAfter(Begin(table, |sts|), sts, tries);
    TriesKeepInv(Begin(table, |sts|), table, sts, tries);
    if AllReturned(r) && SameRowSameStatement(sts) {
      ReturnedWritesAreComplete(table, sts, tries);
      ParallelIsInOrder(table, sts, r.effects);
    }
    forall row | Untouched(sts, row) ensures Agree(r.table, table, row) {
      EffectsElsewhere(table, sts, r.effects, row);
    }
  }

  /** Writes can always finish: each loop succeeds at once. */
  lemma {:induction false} WritesCanFinish(r: Retries, sts: seq<Statement>, i: nat) returns (tries: seq<Try>)
    requires |r.loops| == |sts| && i <= |sts| && forall j | 0 <= j < |sts| :: r.loops[j].Returned? <==> j < i
    requires forall j | i <= j < |sts| :: r.loops[j].Trying?
    ensures TriesRun(r, sts, tries) && AllReturned(TriesAfter(r, sts, tries))
    decreases |sts| - i
  {
    tries := [];
    if i < |sts| {
      var rest := WritesCanFinish(TryNext(r, sts, Try(i, Done)), sts, i + 1);
      tries := [Try(i, Done)] + rest;
      assert tries[1..] == rest;
    }
  }

  /** The fates of the i-th loop's own attempts, in order. */
  function FatesOf(tries: seq<Try>, i: nat): seq<Attempt> {
    if tries == [] then []
    else FatesOf(tries[..|tries| - 1], i) + if tries[|tries| - 1].i == i then [tries[|tries| - 1].fate] else []
  }

  predicate AllLost(fates: seq<Attempt>) { forall k | 0 <= k < |fates| :: fates[k].Lost? }

  /** A loop tries on while connections break, three times in all; returns on the first success;
      throws on any other error, or with the third connection lost. */
  predicate LoopIs(loop: Loop, fates: seq<Attempt>) {
    match loop
    case Trying(lost) => |fates| == lost < 3 && AllLost(fates)
    case Returned => 1 <= |fates| <= 3 && AllLost(fates[..|fates| - 1]) && fates[|fates| - 1].Done?
    case Threw =>
      && 1 <= |fates| <= 3 && AllLost(fates[..|fates| - 1])
      && (fates[|fates| - 1].Failed? || (|fates| == 3 && fates[2].Lost?))
  }

  /** How often a loop's statement took effect: with its success, and with every connection that
      broke after it had. */
  function EffectsOf(fates: seq<Attempt>): nat {
    if fates == [] then 0
    else
      var taken := EffectsOf(fates[..|fates| - 1]);
      match fates[|fates| - 1]
      case Done => taken + 1
      case Lost(effect) => if effect then taken + 1 else taken
      case Failed => taken
  }

  lemma FatesOneMore(tries: seq<Try>, t: Try, i: nat)
    ensures FatesOf(tries + [t], i) == FatesOf(tries, i) + if t.i == i then [t.fate] else []
  {
    assert (tries + [t])[..|tries|] == tries;
  }

  lemma LoopOneMore(r: Retries, sts: seq<Statement>, t: Try, fates: seq<Attempt>)
    requires |r.loops| == |sts| && TryEnabled(r, t) && LoopIs(r.loops[t.i], fates)
    ensures LoopIs(TryNext(r, sts, t).loops[t.i], fates + [t.fate])
    ensures multiset(TryNext(r, sts, t).effects)[t.i] ==
            multiset(r.effects)[t.i] + EffectsOf(fates + [t.fate]) - EffectsOf(fates)
  {
    assert (fates + [t.fate])[..|fates|] == fates;
    OneEffectMore(r.effects, t.i);
  }

  lemma LoopStep(r: Retries, sts: seq<Statement>, t: Try, fates: seq<Attempt>, i: nat)
    requires |r.loops| == |sts| && TryEnabled(r, t) && OwnLoop(r, fates, i)
    ensures OwnLoop(TryNext(r, sts, t), fates + (if t.i == i then [t.fate] else []), i)
  {
    if t.i == i {
      LoopOneMore(r, sts, t, fates);
    } else {
      OneEffectMore(r.effects, t.i);
      assert fates + [] == fates;
    }
  }

  lemma TriesOneMore(r: Retries, sts: seq<Statement>, tries: seq<Try>) returns (before: Retries)
    requires |r.loops| == |sts| && tries != [] && TriesRun(r, sts, tries)
    ensures |before.loops| == |sts| && TriesRun(r, sts, tries[..|tries| - 1])
    ensures before == TriesAfter(r, sts, tries[..|tries| - 1]) && TryEnabled(before, tries[|tries| - 1])
    ensures TriesAfter(r, sts, tries) == TryNext(before, sts, tries[|tries| - 1])
    decreases |tries|
  {
    if |tries| > 1 {
      before := TriesOneMore(TryNext(r, sts, tries[0]), sts, tries[1..]);
      assert tries[..|tries| - 1][1..] == tries[1..][..|tries| - 2];
    } else {
      assert tries[..0] == [] && tries[1..] == [];
      before := r;
    }
  }

  predicate OwnLoop(r: Retries, fates: seq<Attempt>, i: nat) {
    i < |r.loops| && LoopIs(r.loops[i], fates) && multiset(r.effects)[i] == EffectsOf(fates)
  }

  /** In every interleaving each loop is what its own attempts make it, and its statement took
      effect exactly as often as they say. */
  lemma {:induction false} EachLoopAlone(table: Table, sts: seq<Statement>, tries: seq<Try>, i: nat)
    requires i < |sts| && TriesRun(Begin(table, |sts|), sts, tries)
    ensures OwnLoop(TriesAfter(Begin(table, |sts|), sts, tries), FatesOf(tries, i), i)
  {
    if tries == [] {
      NothingTried(table, |sts|, i);
    } else {
      var init, last := tries[..|tries| - 1], tries[|tries| - 1];
      var before := TriesOneMore(Begin(table, |sts|), sts, tries);
      EachLoopAlone(table, sts, init, i);
      FatesOneMore(init, last, i);
      assert tries == init + [last];
      LoopStep(before, sts, last, FatesOf(init, i), i);
    }
  }

  lemma NothingTried(table: Table, n: nat, i: nat)
    requires i < n
    ensures OwnLoop(Begin(table, n), [], i)
  {
  }

  // ----- Parallel reads -----

  const PROTO := "app-state-sync-key"

  /** A returned value; app-state-sync-keys are turned into protobufs. */
  datatype Found = Plain(value: Value) | Protobuf(value: Value)

  datatype GetStep = Read(i: nat) | Drop(i: nat)

  datatype Reading = Reading(table: Table, got: map<nat, Option<Value>>, dropped: set<nat>)

  function Lookup(table: Table, row: Row): Option<Value> {
    if row in table && !table[row].Null? then Some(table[row]) else None
  }

  predicate Damaged(found: Option<Value>) { found.Some? && found.value.Scalar? }

  /** A read finds the first value, or a damaged row already deleted. */
  predicate Sees(found: Option<Value>, first: Option<Value>) {
    found == first || (found == None && Damaged(first))
  }

  function RowOf(sid: string, kind: string, id: string): Row { (sid, Joined(kind, id)) }

  predicate GetEnabled(r: Reading, ids: seq<string>, step: GetStep) {
    step.i < |ids| && (step.Drop? ==> step.i in r.got && Damaged(r.got[step.i]))
  }

  function GetNext(r: Reading, sid: string, kind: string, ids: seq<string>, step: GetStep): Reading
    requires GetEnabled(r, ids, step)
  {
    var row := RowOf(sid, kind, ids[step.i]);
    match step
    case Read(i) => r.(got := r.got[i := Lookup(r.table, row)])
    case Drop(i) => r.(table := r.table - {row}, dropped := r.dropped + {i})
  }

  predicate GetRuns(r: Reading, sid: string, kind: string, ids: seq<string>, schedule: seq<GetStep>)
    decreases |schedule|
  {
    schedule == [] ||
    (GetEnabled(r, ids, schedule[0]) &&
     GetRuns(GetNext(r, sid, kind, ids, schedule[0]), sid, kind, ids, schedule[1..]))
  }

  function GetAfter(r: Reading, sid: string, kind: string, ids: seq<string>, schedule: seq<GetStep>): Reading
    requires GetRuns(r, sid, kind, ids, schedule)
    decreases |schedule|
  {
    if schedule == [] then r
    else GetAfter(GetNext(r, sid, kind, ids, schedule[0]), sid, kind, ids, schedule[1..])
  }

  /** Every read returned, and so did the delete of every damaged row read. */
  predicate GetDone(r: Reading, ids: seq<string>) {
    forall i: nat | i < |ids| :: i in r.got && (Damaged(r.got[i]) ==> i in r.dropped)
  }

  function DamagedRows(table: Table, sid: string, kind: string, ids: seq<string>): set<Row> {
    set id | id in ids && Damaged(Lookup(table, RowOf(sid, kind, id))) :: RowOf(sid, kind, id)
  }

  function Kept(table: Table, sid: string, kind: string, ids: seq<string>): map<string, Found> {
    map id | id in ids && Lookup(table, RowOf(sid, kind, id)).Some? && !Damaged(Lookup(table, RowOf(sid, kind, id)))
      :: var value := table[RowOf(sid, kind, id)]; if kind == PROTO then Protobuf(value) else Plain(value)
  }

  /** Keys of that one type come back as protobufs, all others as they are; objects and arrays
      only. */
  lemma WhatIsKept(table: Table, sid: string, kind: string, ids: seq<string>, id: string)
    ensures var row := (sid, kind + "-" + id);
      var kept := Kept(table, sid, kind, ids);
      && (id in kept <==> id in ids && row in table && (table[row].Object? || table[row].Array?))
      && (id in kept ==> kept[id] == if kind == "app-state-sync-key" then Protobuf(table[row]) else Plain(table[row]))
      && (row in DamagedRows(table, sid, kind, ids) <== id in ids && row in table && table[row].Scalar?)
  {
  }

  /** A call can always finish: all reads, then the deletes of what they found damaged. */
  lemma ReadsCanFinish(table: Table, sid: string, kind: string, ids: seq<string>) returns (schedule: seq<GetStep>)
    ensures GetRuns(Reading(table, map[], {}), sid, kind, ids, schedule)
    ensures GetDone(GetAfter(Reading(table, map[], {}), sid, kind, ids, schedule), ids)
  {
    schedule := FinishFrom(Reading(table, map[], {}), sid, kind, ids, 0);
  }

  /** Read and, if need be, delete each in turn. */
  lemma {:induction false} FinishFrom(r: Reading, sid: string, kind: string, ids: seq<string>, i: nat)
    returns (schedule: seq<GetStep>)
    requires i <= |ids|
    requires forall j: nat | j < i :: j in r.got && (Damaged(r.got[j]) ==> j in r.dropped)
    ensures GetRuns(r, sid, kind, ids, schedule) && GetDone(GetAfter(r, sid, kind, ids, schedule), ids)
    decreases |ids| - i
  {
    schedule := [];
    if i < |ids| {
      var read := GetNext(r, sid, kind, ids, Read(i));
      if Damaged(read.got[i]) {
        var rest := FinishFrom(GetNext(read, sid, kind, ids, Drop(i)), sid, kind, ids, i + 1);
        schedule := [Read(i), Drop(i)] + rest;
        assert schedule[1..] == [Drop(i)] + rest && schedule[1..][1..] == rest;
      } else {
        var rest := FinishFrom(read, sid, kind, ids, i + 1);
        schedule := [Read(i)] + rest;
        assert schedule[1..] == rest;
      }
    }
  }

  /** Only damaged rows of the call go; a read sees the first table, or a row just dropped. */
  ghost predicate GetInv(r: Reading, table: Table, sid: string, kind: string, ids: seq<string>) {
    && (forall row | row in r.table :: row in table && r.table[row] == table[row])
    && (forall row | row in table && row !in r.table :: row in DamagedRows(table, sid, kind, ids))
    && (forall i | i in r.got && i < |ids| ::
          var first := Lookup(table, RowOf(sid, kind, ids[i]));
          Sees(r.got[i], first) && (r.got[i] != first ==> RowOf(sid, kind, ids[i]) !in r.table))
    && (forall i | i in r.dropped :: i < |ids| && RowOf(sid, kind, ids[i]) !in r.table)
  }

  lemma {:induction false} GetKeepsInv(r: Reading, table: Table, sid: string, kind: string, ids: seq<string>,
      schedule: seq<GetStep>)
    requires GetRuns(r, sid, kind, ids, schedule) && GetInv(r, table, sid, kind, ids)
    ensures GetInv(GetAfter(r, sid, kind, ids, schedule), table, sid, kind, ids)
    decreases |schedule|
  {
    if schedule != [] {
      var next := GetNext(r, sid, kind, ids, schedule[0]);
      var id := ids[schedule[0].i];
      var row := RowOf(sid, kind, id);
      assert schedule[0].Drop? && row in r.table ==> row in DamagedRows(table, sid, kind, ids);
      assert GetInv(next, table, sid, kind, ids);
      GetKeepsInv(next, table, sid, kind, ids, schedule[1..]);
    }
  }

  /** Whatever the order of the reads and deletes, the call sees the table it began with and
      leaves it without the damaged rows it asked for. */
  lemma GetIsAtomic(table: Table, sid: string, kind: string, ids: seq<string>, schedule: seq<GetStep>)
    requires GetRuns(Reading(table, map[], {}), sid, kind, ids, schedule)
    requires GetDone(GetAfter(Reading(table, map[], {}), sid, kind, ids, schedule), ids)
    ensures var r := GetAfter(Reading(table, map[], {}), sid, kind, ids, schedule);
      && r.table == table - DamagedRows(table, sid, kind, ids)
      && forall i: nat | i < |ids| ::
           i in r.got && Sees(r.got[i], Lookup(table, RowOf(sid, kind, ids[i])))
  {
    GetKeepsInv(Reading(table, map[], {}), table, sid, kind, ids, schedule);
    var r := GetAfter(Reading(table, map[], {}), sid, kind, ids, schedule);
    forall row | row in DamagedRows(table, sid, kind, ids) ensures row !in r.table {
      var id :| id in ids && RowOf(sid, kind, id) == row;
      var i :| 0 <= i < |ids| && ids[i] == id;
      assert i in r.got;
    }
  }
}
