/** The credentials table, used through keys.get and keys.set, is a plain map from
    (session, type, id) to values, over whole runs of calls that do not overlap. */
module AuthStoreMap {
  import opened AuthStore

  type Name = (string, string, string) // session, type, id
  type PlainMap = map<Name, Value>

  datatype Call =
    | Set(sid: string, entries: seq<Entry>)
    | Get(sid: string, kind: string, ids: seq<string>)
    | SaveCreds(sid: string, creds: Value)
    | Clear(sid: string)

  // ----- The plain map -----

  function PlainWrite(m: PlainMap, sid: string, e: Entry): PlainMap {
    var name := (sid, e.kind, e.id);
    if e.value.Truthy() then m[name := e.value] else m - {name}
  }

  function PlainSet(m: PlainMap, sid: string, entries: seq<Entry>): PlainMap {
    if entries == [] then m
    else
      var before, e := PlainSet(m, sid, entries[..|entries| - 1]), entries[|entries| - 1];
      PlainWrite(before, sid, e)
  }

  /** Reading forgets values that are not objects. */
  function PlainCall(m: PlainMap, c: Call): PlainMap {
    match c
    case Set(sid, entries) => PlainSet(m, sid, entries)
    case Get(sid, kind, ids) => map n | n in m && !(n.0 == sid && n.1 == kind && n.2 in ids && m[n].Scalar?) :: m[n]
    case SaveCreds(_, _) => m
    case Clear(sid) => map n | n in m && n.0 != sid :: m[n]
  }

  function PlainGet(m: PlainMap, sid: string, kind: string, ids: seq<string>): map<string, Found> {
    map id | id in ids && (sid, kind, id) in m && (m[(sid, kind, id)].Object? || m[(sid, kind, id)].Array?)
      :: if kind == PROTO then Protobuf(m[(sid, kind, id)]) else Plain(m[(sid, kind, id)])
  }

  // ----- The table -----

  function RowFor(n: Name): Row { RowOf(n.0, n.1, n.2) }

  /** No two names in use share a row. */
  predicate Separate(names: set<Name>) {
    forall p, q | p in names && q in names && RowFor(p) == RowFor(q) :: p == q
  }

  predicate Uses(c: Call, names: set<Name>) {
    match c
    case Set(sid, entries) =>
      && (forall i | 0 <= i < |entries| :: (sid, entries[i].kind, entries[i].id) in names)
      && (forall i, j | 0 <= i < j < |entries| ::
            entries[i].kind != entries[j].kind || entries[i].id != entries[j].id)
    case Get(sid, kind, ids) => forall id | id in ids :: (sid, kind, id) in names
    case _ => true
  }

  /** A call that returns may leave t' behind when it began with t: any interleaving of its
      parallel statements' retry loops is allowed. */
  ghost predicate Leaves(t: Table, c: Call, t': Table) {
    match c
    case Set(sid, entries) =>
      exists tries :: TriesRun(Begin(t, |entries|), Writes(sid, entries), tries)
        && AllReturned(TriesAfter(Begin(t, |entries|), Writes(sid, entries), tries))
        && t' == TriesAfter(Begin(t, |entries|), Writes(sid, entries), tries).table
    case Get(sid, kind, ids) =>
      exists schedule :: GetRuns(Reading(t, map[], {}), sid, kind, ids, schedule)
        && GetDone(GetAfter(Reading(t, map[], {}), sid, kind, ids, schedule), ids)
        && t' == GetAfter(Reading(t, map[], {}), sid, kind, ids, schedule).table
    case SaveCreds(sid, creds) => t' == Apply(t, Upsert((sid, CREDS), creds))
    case Clear(sid) => t' == map row | row in t && row.0 != sid :: t[row]
  }

  /** Every call can return. */
  lemma CallsCanReturn(t: Table, c: Call)
    ensures exists t' :: Leaves(t, c, t')
  {
    match c
    case Set(sid, entries) =>
      var tries := WritesCanFinish(Begin(t, |entries|), Writes(sid, entries), 0);
      assert Leaves(t, c, TriesAfter(Begin(t, |entries|), Writes(sid, entries), tries).table);
    case Get(sid, kind, ids) =>
      var schedule := ReadsCanFinish(t, sid, kind, ids);
      assert Leaves(t, c, GetAfter(Reading(t, map[], {}), sid, kind, ids, schedule).table);
    case SaveCreds(sid, creds) => assert Leaves(t, c, Apply(t, Upsert((sid, CREDS), creds)));
    case Clear(sid) => assert Leaves(t, c, map row | row in t && row.0 != sid :: t[row]);
  }

  predicate Refines(t: Table, m: PlainMap, names: set<Name>) {
    && m.Keys <= names
    && forall n | n in names :: (RowFor(n) in t <==> n in m) && (n in m && RowFor(n) in t ==> t[RowFor(n)] == m[n])
  }

  // ----- Refinement -----

  lemma EntriesAreSeparate(sid: string, entries: seq<Entry>, names: set<Name>)
    requires Separate(names) && Uses(Set(sid, entries), names)
    ensures SameRowSameStatement(Writes(sid, entries))
  {
    var sts := Writes(sid, entries);
    forall i, j | 0 <= i < |sts| && 0 <= j < |sts| && sts[i].row == sts[j].row ensures sts[i] == sts[j] {
      var p, q := (sid, entries[i].kind, entries[i].id), (sid, entries[j].kind, entries[j].id);
      assert RowFor(p) == RowFor(q) && p == q;
    }
  }

  lemma WriteRefines(t: Table, m: PlainMap, sid: string, e: Entry, names: set<Name>)
    requires Separate(names) && (sid, e.kind, e.id) in names && Refines(t, m, names)
    ensures Refines(Apply(t, Write(sid, e)), PlainWrite(m, sid, e), names)
  {
    var name := (sid, e.kind, e.id);
    assert Write(sid, e).row == RowFor(name);
    assert forall n | n in names && RowFor(n) == RowFor(name) :: n == name;
  }

  lemma {:induction false} SetRefines(t: Table, m: PlainMap, sid: string, entries: seq<Entry>, names: set<Name>)
    requires Separate(names) && Uses(Set(sid, entries), names) && Refines(t, m, names)
    ensures Refines(InOrder(t, Writes(sid, entries)), PlainSet(m, sid, entries), names)
  {
    if entries != [] {
      var init, e := entries[..|entries| - 1], entries[|entries| - 1];
      SetRefines(t, m, sid, init, names);
      var sts := Writes(sid, entries);
      assert sts[..|sts| - 1] == Writes(sid, init);
      assert Uses(Set(sid, init), names) && (sid, e.kind, e.id) in names;
      WriteRefines(InOrder(t, Writes(sid, init)), PlainSet(m, sid, init), sid, e, names);
    }
  }

  lemma GetRefines(t: Table, m: PlainMap, sid: string, kind: string, ids: seq<string>, names: set<Name>)
    requires Separate(names) && Uses(Get(sid, kind, ids), names) && Refines(t, m, names)
    ensures Refines(t - DamagedRows(t, sid, kind, ids), PlainCall(m, Get(sid, kind, ids)), names)
    ensures Kept(t, sid, kind, ids) == PlainGet(m, sid, kind, ids)
  {
    forall n | n in names
      ensures RowFor(n) in DamagedRows(t, sid, kind, ids) <==>
              n in m && n.0 == sid && n.1 == kind && n.2 in ids && m[n].Scalar?
    {
      if RowFor(n) in DamagedRows(t, sid, kind, ids) {
        var id :| id in ids && Damaged(Lookup(t, RowOf(sid, kind, id))) && RowOf(sid, kind, id) == RowFor(n);
        assert (sid, kind, id) in names && RowFor((sid, kind, id)) == RowFor(n);
      }
    }
    forall id | id in ids ensures RowOf(sid, kind, id) in t <==> (sid, kind, id) in m {
      assert (sid, kind, id) in names && RowFor((sid, kind, id)) == RowOf(sid, kind, id);
    }
  }

  lemma CallRefines(t: Table, m: PlainMap, c: Call, t': Table, names: set<Name>)
    requires Separate(names) && Uses(c, names) && Refines(t, m, names) && Leaves(t, c, t')
    ensures Refines(t', PlainCall(m, c), names)
  {
    match c
    case Set(sid, entries) =>
      var tries :| TriesRun(Begin(t, |entries|), Writes(sid, entries), tries)
        && AllReturned(TriesAfter(Begin(t, |entries|), Writes(sid, entries), tries))
        && t' == TriesAfter(Begin(t, |entries|), Writes(sid, entries), tries).table;
      EntriesAreSeparate(sid, entries, names);
      SettledWrites(t, Writes(sid, entries), tries);
      SetRefines(t, m, sid, entries, names);
    case Get(sid, kind, ids) =>
      var schedule :| GetRuns(Reading(t, map[], {}), sid, kind, ids, schedule)
        && GetDone(GetAfter(Reading(t, map[], {}), sid, kind, ids, schedule), ids)
        && t' == GetAfter(Reading(t, map[], {}), sid, kind, ids, schedule).table;
      GetIsAtomic(t, sid, kind, ids, schedule);
      GetRefines(t, m, sid, kind, ids, names);
    case SaveCreds(sid, creds) =>
      forall n | n in names ensures RowFor(n) != (sid, CREDS) {
        JoinedIsNotCreds(n.1, n.2);
      }
    case Clear(sid) =>
  }

  ghost predicate StoreIsMap(names: set<Name>) {
    forall t, m, c, t' | Uses(c, names) && Refines(t, m, names) && Leaves(t, c, t') ::
      Refines(t', PlainCall(m, c), names)
  }

  /** Every call does to the table what it does to the plain map, exactly when no two
      (type, id) pairs in use spell the same joined key. */
  lemma WhenStoreIsMap(names: set<Name>)
    ensures StoreIsMap(names) <==> Separate(names)
  {
    if Separate(names) {
      forall t, m, c, t' | Uses(c, names) && Refines(t, m, names) && Leaves(t, c, t')
        ensures Refines(t', PlainCall(m, c), names)
      {
        CallRefines(t, m, c, t', names);
      }
    } else {
      var p, q :| p in names && q in names && RowFor(p) == RowFor(q) && p != q;
      var e := Entry(p.1, p.2, Object(0));
      var c := Set(p.0, [e]);
      var t: Table, m: PlainMap := map[], map[];
      var none: seq<Entry>, sts, tries := [], Writes(p.0, [e]), [Try(0, Done)];
      assert [e][..0] == none && sts == [Write(p.0, e)];
      var r := TryNext(Begin(t, 1), sts, tries[0]);
      assert tries[1..] == [] && TriesRun(r, sts, []) && TriesAfter(Begin(t, 1), sts, tries) == r;
      var t' := r.table;
      assert t' == Apply(t, Write(p.0, e)) == map[RowFor(p) := Object(0)];
      assert AllReturned(r) && TriesRun(Begin(t, 1), sts, tries);
      assert Leaves(t, c, t') && Refines(t, m, names) && Uses(c, names);
      assert PlainCall(m, c) == PlainSet(m, p.0, none)[p := Object(0)];
      assert q !in PlainCall(m, c) && RowFor(q) in t';
    }
  }

  function PlainRun(m: PlainMap, calls: seq<Call>): PlainMap {
    if calls == [] then m else PlainCall(PlainRun(m, calls[..|calls| - 1]), calls[|calls| - 1])
  }

  /** After any run of calls, each read gives what the plain map gives: the last object
      written under that (type, id), or nothing if it was deleted since. */
  lemma {:induction false} RunRefines(tables: seq<Table>, m: PlainMap, calls: seq<Call>, names: set<Name>)
    requires Separate(names) && |tables| == |calls| + 1 && Refines(tables[0], m, names)
    requires forall i | 0 <= i < |calls| :: Uses(calls[i], names) && Leaves(tables[i], calls[i], tables[i + 1])
    ensures Refines(tables[|calls|], PlainRun(m, calls), names)
    ensures forall sid, kind, ids | Uses(Get(sid, kind, ids), names) ::
      Kept(tables[|calls|], sid, kind, ids) == PlainGet(PlainRun(m, calls), sid, kind, ids)
  {
    var n := |calls|;
    if calls != [] {
      RunRefines(tables[..n], m, calls[..n - 1], names);
      CallRefines(tables[n - 1], PlainRun(m, calls[..n - 1]), calls[n - 1], tables[n], names);
    }
    forall sid, kind, ids | Uses(Get(sid, kind, ids), names)
      ensures Kept(tables[n], sid, kind, ids) == PlainGet(PlainRun(m, calls), sid, kind, ids)
    {
      GetRefines(tables[n], PlainRun(m, calls), sid, kind, ids, names);
    }
  }

  /** Reads and writes of keys leave every creds row and every other session alone. */
  lemma KeysLeaveCredsAlone(t: Table, c: Call, t': Table, row: Row)
    requires (c.Set? || c.Get?) && Leaves(t, c, t') && (row.0 != c.sid || row.1 == CREDS)
    ensures Agree(t', t, row)
  {
    match c
    case Set(sid, entries) =>
      var tries :| TriesRun(Begin(t, |entries|), Writes(sid, entries), tries)
        && AllReturned(TriesAfter(Begin(t, |entries|), Writes(sid, entries), tries))
        && t' == TriesAfter(Begin(t, |entries|), Writes(sid, entries), tries).table;
      forall i | 0 <= i < |entries| ensures Writes(sid, entries)[i].row != row {
        JoinedIsNotCreds(entries[i].kind, entries[i].id);
      }
      SettledWrites(t, Writes(sid, entries), tries);
    case Get(sid, kind, ids) =>
      var schedule :| GetRuns(Reading(t, map[], {}), sid, kind, ids, schedule)
        && GetDone(GetAfter(Reading(t, map[], {}), sid, kind, ids, schedule), ids)
        && t' == GetAfter(Reading(t, map[], {}), sid, kind, ids, schedule).table;
      GetIsAtomic(t, sid, kind, ids, schedule);
      forall id ensures RowOf(sid, kind, id) != row {
        JoinedIsNotCreds(kind, id);
      }
  }

  /** Distinct pairs can share a row. */
  lemma JoinedCanCollide()
    ensures Joined("a-b", "c") == Joined("a", "b-c")
  {
    assert "a-b" + "-" + "c" == "a-b-c" == "a" + "-" + "b-c";
  }
}
