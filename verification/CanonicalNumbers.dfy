/** Migration 0027: one UPDATE rewrites stored phone numbers to `+<digits>`, on a table
    unique on (channel, phone). */
module CanonicalNumbers {
  import opened Basics

  type Id = int
  datatype Row = Row(channel: int, phone: string)
  type Table = map<Id, Row>

  function Digits(s: string): string {
    if s == "" then ""
    else if '0' <= s[0] <= '9' then s[..1] + Digits(s[1..])
    else Digits(s[1..])
  }

  function Canonical(s: string): string { "+" + Digits(s) }

  /** The ten digits stay, in order, and nothing else does. */
  lemma {:induction false} WhatDigitsKeeps(s: string, c: char)
    ensures Digits("") == "" && Digits(s + [c]) == Digits(s) + (if c in "0123456789" then [c] else "")
  {
    if s == "" {
      assert s + [c] == [c] && [c][1..] == "";
    } else {
      assert (s + [c])[1..] == s[1..] + [c] && (s + [c])[..1] == s[..1];
      WhatDigitsKeeps(s[1..], c);
    }
  }

  /** The `candidate` CTE. */
  predicate Candidate(r: Row) {
    6 <= |Digits(r.phone)| <= 15 && r.phone != Canonical(r.phone)
  }

  /** Some other row of the channel already holds the canonical form. */
  predicate Blocked(t: Table, id: Id)
    requires id in t
  {
    exists other | other in t ::
      other != id && t[other].channel == t[id].channel && t[other].phone == Canonical(t[id].phone)
  }

  predicate Chosen(t: Table, id: Id) { id in t && Candidate(t[id]) && !Blocked(t, id) }

  /** The statement rewrites a row to a plus and its digits if those are 6 to 15, it is not so
      spelled already, and no row of its channel is. */
  lemma WhenRowIsChosen(t: Table, id: Id)
    ensures Chosen(t, id) <==>
      && id in t && |Digits(t[id].phone)| in {6, 7, 8, 9, 10, 11, 12, 13, 14, 15}
      && forall other | other in t && t[other].channel == t[id].channel :: t[other].phone != "+" + Digits(t[id].phone)
    ensures id in t ==> Rewritten(t[id]) == Row(t[id].channel, "+" + Digits(t[id].phone))
  {
  }

  predicate Clash(t: Table, a: Id, b: Id)
    requires a in t && b in t
  {
    a != b && t[a] == t[b]
  }

  /** uq_whatsapp_conv_channel_phone. */
  predicate Unique(t: Table) { forall a, b | a in t && b in t :: !Clash(t, a, b) }

  /** The chosen rows in the order the database happens to update them. */
  predicate IsOrder(t: Table, order: seq<Id>) {
    && (forall i | 0 <= i < |order| :: Chosen(t, order[i]))
    && (forall id | id in t && Chosen(t, id) :: id in order)
    && (forall i, j | 0 <= i < j < |order| :: order[i] != order[j])
  }

  function Rewritten(r: Row): Row { r.(phone := Canonical(r.phone)) }

  /** Another row of the table is what this one is to become. */
  predicate Conflicts(now: Table, id: Id, row: Row) {
    exists other | other in now :: other != id && now[other] == row
  }

  /** The statement: rows are chosen from the snapshot, then rewritten one by one; the
      unique constraint is not deferrable, so it is checked at every row. */
  function Update(t: Table, order: seq<Id>): Option<Table>
    requires forall i | 0 <= i < |order| :: order[i] in t
  {
    if order == [] then Some(t)
    else
      var id := order[|order| - 1];
      match Update(t, order[..|order| - 1])
      case None => None
      case Some(now) =>
        if Conflicts(now, id, Rewritten(t[id])) then None
        else Some(now[id := Rewritten(t[id])])
  }

  /** Every chosen row rewritten, nothing else touched. */
  function Canonicalised(t: Table): Table {
    map id | id in t :: if Chosen(t, id) then Rewritten(t[id]) else t[id]
  }

  /** Two chosen rows of one channel share a canonical form, which nobody holds. */
  predicate Collide(t: Table) {
    exists a, b | a in t && b in t ::
      a != b && Chosen(t, a) && Chosen(t, b) && Rewritten(t[a]) == Rewritten(t[b])
  }

  lemma {:induction false} DigitsOfDigits(s: string)
    ensures Digits(Digits(s)) == Digits(s)
    ensures Digits(Canonical(s)) == Digits(s)
  {
    if s != "" {
      DigitsOfDigits(s[1..]);
    }
    assert Canonical(s)[1..] == Digits(s);
  }

  lemma HoldersAreNotChosen(t: Table, holder: Id, r: Row)
    requires holder in t && t[holder].phone == Canonical(r.phone)
    ensures !Chosen(t, holder)
  {
    DigitsOfDigits(r.phone);
  }

  /** The order prefix rewritten so far. */
  function Partly(t: Table, order: seq<Id>): Table {
    map id | id in t :: if id in order then Rewritten(t[id]) else t[id]
  }

  /** At its turn, a chosen row meets a conflict exactly with an earlier chosen row. */
  lemma ConflictsAreEarlier(t: Table, init: seq<Id>, id: Id)
    requires forall i | 0 <= i < |init| :: init[i] in t && init[i] != id
    requires id in t && Chosen(t, id)
    ensures Conflicts(Partly(t, init), id, Rewritten(t[id])) <==>
            !(forall i | 0 <= i < |init| :: Rewritten(t[init[i]]) != Rewritten(t[id]))
  {
    var now := Partly(t, init);
    forall other | other in now && other != id && other !in init ensures now[other] != Rewritten(t[id]) {
      assert !Blocked(t, id);
    }
    forall i | 0 <= i < |init| ensures now[init[i]] == Rewritten(t[init[i]]) && init[i] != id {}
  }

  predicate Apart(t: Table, order: seq<Id>)
    requires forall i | 0 <= i < |order| :: order[i] in t
  {
    order == [] ||
    var n := |order| - 1;
    Apart(t, order[..n]) && forall i | 0 <= i < n :: Rewritten(t[order[..n][i]]) != Rewritten(t[order[n]])
  }

  lemma {:induction false} ApartMeans(t: Table, order: seq<Id>)
    requires forall i | 0 <= i < |order| :: order[i] in t
    ensures Apart(t, order) <==>
      forall i, j | 0 <= i < j < |order| :: Rewritten(t[order[i]]) != Rewritten(t[order[j]])
  {
    if order != [] {
      var n := |order| - 1;
      ApartMeans(t, order[..n]);
      assert forall i | 0 <= i < n :: order[..n][i] == order[i];
    }
  }

  lemma PartlyOneMore(t: Table, init: seq<Id>, id: Id)
    requires id in t
    ensures Partly(t, init + [id]) == Partly(t, init)[id := Rewritten(t[id])]
  {
  }

  lemma {:induction false} UpdateRewrites(t: Table, order: seq<Id>)
    requires forall i | 0 <= i < |order| :: order[i] in t && Chosen(t, order[i])
    requires forall i, j | 0 <= i < j < |order| :: order[i] != order[j]
    ensures Update(t, order) == None || Update(t, order) == Some(Partly(t, order))
    ensures Update(t, order).Some? <==> Apart(t, order)
  {
    if order == [] {
      assert Partly(t, order) == t;
    } else {
      var n := |order| - 1;
      var init, id := order[..n], order[n];
      UpdateRewrites(t, init);
      assert order == init + [id];
      if Update(t, init).Some? {
        ConflictsAreEarlier(t, init, id);
        PartlyOneMore(t, init, id);
      }
    }
  }

  /** In whatever order the rows are updated, the migration goes through exactly when no two
      chosen rows of one channel share a canonical form; it then rewrites all of them. */
  lemma WhenMigrationSucceeds(t: Table, order: seq<Id>)
    requires IsOrder(t, order)
    ensures Update(t, order).Some? <==> !Collide(t)
    ensures Update(t, order).Some? ==> Update(t, order).value == Canonicalised(t)
  {
    UpdateRewrites(t, order);
    ApartMeans(t, order);
    assert forall id | id in t :: id in order <==> Chosen(t, id);
    if a, b :| a in t && b in t && a != b && Chosen(t, a) && Chosen(t, b) && Rewritten(t[a]) == Rewritten(t[b]) {
      var i :| 0 <= i < |order| && order[i] == a;
      var j :| 0 <= j < |order| && order[j] == b;
      assert Rewritten(t[order[i]]) == Rewritten(t[order[j]]);
    }
  }

  lemma MovesToFreeNumber(t: Table, id: Id, other: Id)
    requires Chosen(t, id) && other in t && other != id
    ensures t[other] != Rewritten(t[id])
  {
    assert !Blocked(t, id);
    assert !(t[other].channel == t[id].channel && t[other].phone == Canonical(t[id].phone));
  }

  lemma StaysApart(t: Table, a: Id, b: Id)
    requires Unique(t) && !Collide(t) && a in t && b in t && a != b
    ensures Canonicalised(t)[a] != Canonicalised(t)[b]
  {
    assert !Clash(t, a, b);
    if Chosen(t, a) {
      MovesToFreeNumber(t, a, b);
    }
    if Chosen(t, b) {
      MovesToFreeNumber(t, b, a);
    }
  }

  lemma StaysUnique(t: Table)
    requires Unique(t) && !Collide(t)
    ensures Unique(Canonicalised(t))
  {
    forall a, b | a in t && b in t && a != b ensures !Clash(Canonicalised(t), a, b) {
      StaysApart(t, a, b);
    }
  }

  /** A migration that succeeds keeps the constraint, every row, its channel and its digits;
      and it leaves nothing for a second run. */
  lemma MigrationKeepsRows(t: Table, order: seq<Id>)
    requires Unique(t) && IsOrder(t, order) && Update(t, order).Some?
    ensures var n := Update(t, order).value;
      && Unique(n) && n.Keys == t.Keys
      && (forall id | id in t :: n[id].channel == t[id].channel && Digits(n[id].phone) == Digits(t[id].phone))
      && (forall id | id in n :: !Chosen(n, id))
      && Update(n, []) == Some(n) && IsOrder(n, [])
  {
    WhenMigrationSucceeds(t, order);
    StaysUnique(t);
    var n := Canonicalised(t);
    forall id | id in t
      ensures Digits(n[id].phone) == Digits(t[id].phone) && !Chosen(n, id)
    {
      DigitsOfDigits(t[id].phone);
      if !Chosen(t, id) && Candidate(t[id]) {
        var holder :| holder in t && holder != id && t[holder].channel == t[id].channel &&
                      t[holder].phone == Canonical(t[id].phone);
        HoldersAreNotChosen(t, holder, t[id]);
        assert n[holder] == t[holder] && Blocked(n, id);
      }
    }
  }

  /** What is left not canonical: rows that never were numbers, and true duplicates of a row
      that holds the canonical form. */
  lemma WhatStays(t: Table, id: Id)
    requires id in t
    ensures var phone := Canonicalised(t)[id].phone;
      phone == Canonical(t[id].phone) || (phone == t[id].phone && (Blocked(t, id) || !(6 <= |Digits(phone)| <= 15)))
  {
  }

  /** Two spellings of one number, with no canonical row, stop the whole migration: the
      collision check reads the snapshot, where nobody holds the canonical form yet. */
  lemma TwoSpellingsStopTheMigration(a: string, b: string)
    requires a != b && Candidate(Row(7, a)) && Candidate(Row(7, b)) && Canonical(a) == Canonical(b)
    ensures var t: Table := map[1 := Row(7, a), 2 := Row(7, b)];
      Unique(t) && IsOrder(t, [1, 2]) && Update(t, [1, 2]) == None
  {
    var t: Table := map[1 := Row(7, a), 2 := Row(7, b)];
    assert t.Keys == {1, 2} && t[1] == Row(7, a) && t[2] == Row(7, b);
    assert !Blocked(t, 1) && !Blocked(t, 2);
    assert IsOrder(t, [1, 2]);
    assert Collide(t) by {
      assert Chosen(t, 1) && Chosen(t, 2) && Rewritten(t[1]) == Rewritten(t[2]);
    }
    WhenMigrationSucceeds(t, [1, 2]);
  }

  /** Such spellings exist. */
  lemma SpacedAndDashed()
    ensures "123 456" != "123-456"
    ensures Candidate(Row(7, "123 456")) && Candidate(Row(7, "123-456"))
    ensures Digits("123 456") == Digits("123-456")
  {
    SpelledDigits(" ");
    SpelledDigits("-");
    assert "123" + " " + "456" == "123 456" && "123" + "-" + "456" == "123-456";
    assert "123 456"[3] != "123-456"[3];
  }

  lemma SpelledDigits(separator: string)
    requires |separator| == 1 && !('0' <= separator[0] <= '9')
    ensures Digits("123" + separator + "456") == "123456"
  {
    var tail := separator + "456";
    assert tail[1..] == "456" && "456"[1..] == "56" && "56"[1..] == "6" && "6"[1..] == "";
    assert Digits("6") == "6" && Digits("56") == "56" && Digits("456") == "456" && Digits(tail) == "456";
    var s := "123" + separator + "456";
    assert s[1..] == "23" + tail && s[1..][1..] == "3" + tail && s[1..][1..][1..] == tail;
    assert Digits("3" + tail) == "3456" && Digits("23" + tail) == "23456";
  }
}
