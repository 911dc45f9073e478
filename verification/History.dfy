/** Importing the history a phone hands over (whatsapp-bridge/src/history.js), beside the
    live path's addressing (whatsapp-bridge/src/sessions.js). An absent JavaScript string is
    the empty string: both are falsy. */
module History {
  import opened Basics

  const DIRECT := "@s.whatsapp.net"
  const LID := "@lid"

  predicate EndsWith(s: string, suffix: string) {
    |suffix| <= |s| && s[|s| - |suffix|..] == suffix
  }

  /** `s.split(c)[0]`. */
  function Before(s: string, c: char): string {
    if s == "" || s[0] == c then "" else s[..1] + Before(s[1..], c)
  }

  function Bare(jid: string): string { Before(Before(jid, ':'), '@') }

  /** `/^\d{6,16}$/`. */
  predicate SixToSixteenDigits(s: string) {
    6 <= |s| <= 16 && forall i | 0 <= i < |s| :: '0' <= s[i] <= '9'
  }

  function DirectPhone(jid: string, phoneJid: string): string
    decreases |phoneJid|
  {
    if EndsWith(jid, LID) then
      if phoneJid != "" then DirectPhone(phoneJid, "") else ""
    else if !EndsWith(jid, DIRECT) then ""
    else if !SixToSixteenDigits(Bare(jid)) then ""
    else "+" + Bare(jid)
  }

  lemma WhenItEndsWith(s: string, suffix: string)
    ensures EndsWith(s, suffix) <==> exists head :: s == head + suffix
  {
    if EndsWith(s, suffix) {
      assert s == s[..|s| - |suffix|] + suffix;
    }
  }

  /** The part before the first c, or everything. */
  lemma {:induction false} WhatIsBefore(s: string, c: char)
    ensures Before(s, c) <= s && c !in Before(s, c)
    ensures |Before(s, c)| < |s| ==> s[|Before(s, c)|] == c
  {
    if s != "" && s[0] != c {
      WhatIsBefore(s[1..], c);
    }
  }

  lemma OnlyOneBefore(s: string, c: char, head: string)
    requires head <= s && c !in head && (|head| < |s| ==> s[|head|] == c)
    ensures Before(s, c) == head
  {
    WhatIsBefore(s, c);
    var found := Before(s, c);
    assert forall i | 0 <= i < |head| :: head[i] in head;
    assert forall i | 0 <= i < |found| :: found[i] in found;
  }

  /** The bare address: up to the first colon or at sign. */
  lemma WhatIsBare(jid: string)
    ensures Bare(jid) <= jid && ':' !in Bare(jid) && '@' !in Bare(jid)
    ensures |Bare(jid)| < |jid| ==> jid[|Bare(jid)|] == ':' || jid[|Bare(jid)|] == '@'
  {
    var head := Before(jid, ':');
    WhatIsBefore(jid, ':');
    WhatIsBefore(head, '@');
    assert Bare(jid) <= head;
    assert |Bare(jid)| < |head| ==> jid[|Bare(jid)|] == head[|Bare(jid)|];
  }

  lemma OnlyOneBare(jid: string, head: string)
    requires head <= jid && ':' !in head && '@' !in head
    requires |head| < |jid| ==> jid[|head|] == ':' || jid[|head|] == '@'
    ensures Bare(jid) == head
  {
    WhatIsBare(jid);
    var found := Bare(jid);
    assert forall i | 0 <= i < |head| :: head[i] in head;
    assert forall i | 0 <= i < |found| :: found[i] in found;
  }

  lemma AtSignInside(address: string)
    requires EndsWith(address, DIRECT)
    ensures |Bare(address)| < |address|
  {
    WhatIsBare(address);
    assert address[|address| - |DIRECT|] == DIRECT[0] == '@';
  }

  // ----- The live path -----

  function JidToPhone(jid: string): string {
    if jid == "" then ""
    else if "+" <= Bare(jid) then Bare(jid)
    else "+" + Bare(jid)
  }

  /** The live path puts a plus before the bare address, unless one is there. */
  lemma HowLiveSpells(jid: string)
    ensures JidToPhone("") == ""
    ensures jid != "" ==> var phone := JidToPhone(jid);
      && "+" <= phone
      && (if "+" <= Bare(jid) then phone == Bare(jid) else phone[1..] == Bare(jid))
  {
  }

  /** The number handleInbound files a chat under, if it does not drop it. */
  function LiveNumber(jid: string, senderPn: string): Option<string> {
    if !EndsWith(jid, DIRECT) && !EndsWith(jid, LID) then None
    else
      var phoneJid := if EndsWith(jid, LID) then senderPn else jid;
      if phoneJid == "" then None else Some(JidToPhone(phoneJid))
  }

  /** The address that names the other party: the number behind a LID, else the chat. */
  function Address(jid: string, phoneJid: string): string {
    if EndsWith(jid, LID) then phoneJid else jid
  }

  /** A direct chat's address spelling a plausible number. */
  predicate NumberAddress(address: string) {
    EndsWith(address, DIRECT) && SixToSixteenDigits(Bare(address))
  }

  lemma DirectIsNotLid(s: string)
    ensures !(EndsWith(s, DIRECT) && EndsWith(s, LID))
  {
    if EndsWith(s, DIRECT) {
      assert s[|s| - 1] == DIRECT[|DIRECT| - 1] == 't';
    }
    if EndsWith(s, LID) {
      assert s[|s| - 1] == LID[|LID| - 1];
      assert s[|s| - 1] == 'd';
    }
  }

  /** History derives a number exactly from an @s.whatsapp.net address of 6 to 16 digits:
      `+` and those digits; and the live path files the same chat under that very number. */
  lemma HistoryAgreesWithLive(jid: string, phoneJid: string)
    ensures DirectPhone(jid, phoneJid) != "" <==> NumberAddress(Address(jid, phoneJid))
    ensures NumberAddress(Address(jid, phoneJid)) ==>
      && DirectPhone(jid, phoneJid) == "+" + Bare(Address(jid, phoneJid))
      && LiveNumber(jid, phoneJid) == Some(DirectPhone(jid, phoneJid))
  {
    var address := Address(jid, phoneJid);
    DirectIsNotLid(jid);
    DirectIsNotLid(address);
    if SixToSixteenDigits(Bare(address)) {
      assert Bare(address)[0] != '+';
    }
  }

  /** A number is derived exactly from an address, the chat's or the one behind a LID, that is its
      6 to 16 digits, a colon or at sign, and so on up to "@s.whatsapp.net". */
  lemma WhenAPhoneIsDerived(jid: string, phoneJid: string, digits: string)
    ensures DirectPhone(jid, phoneJid) == "+" + digits <==>
      var address := if EndsWith(jid, "@lid") then phoneJid else jid;
      && 6 <= |digits| <= 16 && (forall c | c in digits :: c in "0123456789")
      && digits < address && address[|digits|] in ":@" && EndsWith(address, "@s.whatsapp.net")
  {
    var address := Address(jid, phoneJid);
    HistoryAgreesWithLive(jid, phoneJid);
    WhenANumberIsSpelled(address, digits);
    assert ("+" + digits)[1..] == digits && ("+" + Bare(address))[1..] == Bare(address);
  }

  lemma DigitsAre(s: string)
    ensures SixToSixteenDigits(s) <==> 6 <= |s| <= 16 && forall c | c in s :: c in "0123456789"
  {
    assert forall i | 0 <= i < |s| :: s[i] in s;
  }

  lemma WhenANumberIsSpelled(address: string, digits: string)
    ensures NumberAddress(address) && Bare(address) == digits <==>
      && 6 <= |digits| <= 16 && (forall c | c in digits :: c in "0123456789")
      && digits < address && address[|digits|] in ":@" && EndsWith(address, "@s.whatsapp.net")
  {
    DigitsAre(digits);
    WhatIsBare(address);
    if EndsWith(address, DIRECT) {
      AtSignInside(address);
    }
    if (forall c | c in digits :: c in "0123456789") && digits < address && address[|digits|] in ":@" {
      OnlyOneBare(address, digits);
    }
  }

  /** The live path files a chat that history would skip exactly when its address is there
      but is not such a number: a LID behind a LID, say. */
  lemma WhenOnlyLiveFiles(jid: string, senderPn: string)
    ensures LiveNumber(jid, senderPn).Some? && DirectPhone(jid, senderPn) == "" <==>
            (EndsWith(jid, DIRECT) || EndsWith(jid, LID)) && Address(jid, senderPn) != "" &&
            !NumberAddress(Address(jid, senderPn))
  {
    HistoryAgreesWithLive(jid, senderPn);
  }

  // ----- Contacts -----

  datatype Contact = Contact(id: string, jid: string, name: string, notify: string, verifiedName: string)

  datatype Row = Row(phone: string, name: string)

  predicate IsSpace(c: char) {
    || '\t' <= c <= '\r' || c == ' ' || c == '\U{a0}' || c == '\U{1680}' || '\U{2000}' <= c <= '\U{200a}'
    || c == '\U{2028}' || c == '\U{2029}' || c == '\U{202f}' || c == '\U{205f}' || c == '\U{3000}' || c == '\U{feff}'
  }

  function Trim(s: string): string
    decreases |s|
  {
    if s == "" then ""
    else if IsSpace(s[0]) then Trim(s[1..])
    else if IsSpace(s[|s| - 1]) then Trim(s[..|s| - 1])
    else s
  }

  /** The white space and line ends of ECMAScript. */
  lemma WhatIsSpace(c: char)
    ensures IsSpace(c) <==>
      c as int in {9, 10, 11, 12, 13, 32, 160, 5760, 8192, 8193, 8194, 8195, 8196, 8197, 8198, 8199, 8200, 8201, 8202,
                   8232, 8233, 8239, 8287, 12288, 65279}
  {
  }

  /** White space goes from both ends, and nothing else. */
  lemma {:induction false} WhatTrimKeeps(s: string) returns (before: string, after: string)
    ensures s == before + Trim(s) + after
    ensures forall c | c in before || c in after :: IsSpace(c)
    ensures Trim(s) != "" ==> !IsSpace(Trim(s)[0]) && !IsSpace(Trim(s)[|Trim(s)| - 1])
    decreases |s|
  {
    before, after := "", "";
    if s != "" {
      if IsSpace(s[0]) {
        before, after := WhatTrimKeeps(s[1..]);
        assert s == s[..1] + s[1..];
        before := s[..1] + before;
      } else if IsSpace(s[|s| - 1]) {
        before, after := WhatTrimKeeps(s[..|s| - 1]);
        assert s == s[..|s| - 1] + s[|s| - 1..];
        after := after + s[|s| - 1..];
      }
    }
  }

  /** The saved name goes before the one a contact gives itself, and that before a business's. */
  lemma WhichNameCounts(c: Contact)
    ensures c.name != "" ==> NameOf(c) == Trim(c.name) && SightingOf(c).saved
    ensures c.name == "" && c.notify != "" ==> NameOf(c) == Trim(c.notify) && !SightingOf(c).saved
    ensures c.name == "" && c.notify == "" ==> NameOf(c) == Trim(c.verifiedName) && !SightingOf(c).saved
    ensures PhoneOf(c) == DirectPhone(c.id, c.jid)
    ensures SightingOf(c).phone == PhoneOf(c) && SightingOf(c).name == NameOf(c)
    ensures Usable(c) <==> DirectPhone(c.id, c.jid) != "" && NameOf(c) != ""
  {
  }

  function PhoneOf(c: Contact): string { DirectPhone(c.id, c.jid) }

  function NameOf(c: Contact): string {
    Trim(if c.name != "" then c.name else if c.notify != "" then c.notify else c.verifiedName)
  }

  predicate Usable(c: Contact) { PhoneOf(c) != "" && NameOf(c) != "" }

  /** A usable contact, as the loop sees it. */
  datatype Sighting = Sighting(phone: string, name: string, saved: bool)

  function SightingOf(c: Contact): Sighting { Sighting(PhoneOf(c), NameOf(c), c.name != "") }

  /** The usable contacts, in order. */
  function Sightings(contacts: seq<Contact>): seq<Sighting> {
    if contacts == [] then []
    else
      var c := contacts[|contacts| - 1];
      Sightings(contacts[..|contacts| - 1]) +
      if Usable(c) then [SightingOf(c)] else []
  }

  /** One contact more counts, after all others, if it has a number and a name. */
  lemma WhoIsSighted(before: seq<Contact>, c: Contact)
    ensures Sightings([]) == []
    ensures Sightings(before + [c]) == Sightings(before) +
      if DirectPhone(c.id, c.jid) != "" && NameOf(c) != ""
      then [Sighting(DirectPhone(c.id, c.jid), NameOf(c), c.name != "")] else []
  {
    assert (before + [c])[..|before|] == before;
  }

  /** Where a phone is first seen; |seen| if nowhere. */
  function First(seen: seq<Sighting>, phone: string): (k: nat)
    ensures k <= |seen|
    ensures k < |seen| ==> seen[k].phone == phone
  {
    if seen == [] then 0
    else
      var k := First(seen[..|seen| - 1], phone);
      if k < |seen| - 1 || seen[k].phone == phone then k else |seen|
  }

  /** Where a phone is last seen under a saved name; |seen| if nowhere. */
  function LastSaved(seen: seq<Sighting>, phone: string): (k: nat)
    ensures k <= |seen|
    ensures k < |seen| ==> seen[k].phone == phone && seen[k].saved
  {
    if seen == [] then 0
    else if seen[|seen| - 1].phone == phone && seen[|seen| - 1].saved then |seen| - 1
    else
      var k := LastSaved(seen[..|seen| - 1], phone);
      if k < |seen| - 1 then k else |seen|
  }

  lemma FirstIsFirst(seen: seq<Sighting>, phone: string, m: nat)
    requires m < |seen| && seen[m].phone == phone
    ensures First(seen, phone) <= m
  {
    if m < |seen| - 1 {
      FirstIsFirst(seen[..|seen| - 1], phone, m);
    }
  }

  lemma LastSavedIsLast(seen: seq<Sighting>, phone: string, m: nat)
    requires m < |seen| && seen[m].phone == phone && seen[m].saved
    ensures m <= LastSaved(seen, phone) < |seen|
  {
    if m < |seen| - 1 {
      LastSavedIsLast(seen[..|seen| - 1], phone, m);
    }
  }

  /** The sighting that names a phone: the last one saved under a name, else the first. */
  function NamedBy(seen: seq<Sighting>, phone: string): (k: nat)
    ensures k <= |seen|
  {
    if LastSaved(seen, phone) < |seen| then LastSaved(seen, phone) else First(seen, phone)
  }

  predicate Named(seen: seq<Sighting>, row: Row) {
    First(seen, row.phone) < |seen| && row.name == seen[NamedBy(seen, row.phone)].name
  }

  /** Every row rightly named, every phone seen in some row, rows in order of first sight. */
  predicate RowsFor(seen: seq<Sighting>, rows: seq<Row>) {
    && (forall i | 0 <= i < |rows| :: Named(seen, rows[i]))
    && (forall m | 0 <= m < |seen| :: Find(rows, seen[m].phone) < |rows|)
    && (forall i, j | 0 <= i < j < |rows| :: First(seen, rows[i].phone) < First(seen, rows[j].phone))
  }

  /** Which row a phone has; |rows| if none. */
  function Find(rows: seq<Row>, phone: string): (i: nat)
    ensures i <= |rows|
    ensures i < |rows| ==> rows[i].phone == phone
  {
    if rows == [] then 0
    else if rows[|rows| - 1].phone == phone then |rows| - 1
    else
      var i := Find(rows[..|rows| - 1], phone);
      if i == |rows| - 1 then |rows| else i
  }

  lemma FindsAny(rows: seq<Row>, i: nat)
    requires i < |rows|
    ensures Find(rows, rows[i].phone) < |rows|
  {
    if i < |rows| - 1 {
      FindsAny(rows[..|rows| - 1], i);
    }
  }

  /** `seen.set(phone, name)`: an entry keeps the place of its first insertion. */
  function Set(rows: seq<Row>, phone: string, name: string): seq<Row> {
    var i := Find(rows, phone);
    if i == |rows| then rows + [Row(phone, name)] else rows[i := Row(phone, name)]
  }

  /** `if (!seen.has(phone) || contact.name) seen.set(phone, name)`. */
  function Add(rows: seq<Row>, x: Sighting): seq<Row> {
    if Find(rows, x.phone) == |rows| || x.saved then Set(rows, x.phone, x.name) else rows
  }

  lemma SeeOneMore(seen: seq<Sighting>, x: Sighting, phone: string)
    ensures First(seen + [x], phone) ==
            if First(seen, phone) < |seen| then First(seen, phone)
            else if x.phone == phone then |seen| else |seen| + 1
    ensures LastSaved(seen + [x], phone) ==
            if x.phone == phone && x.saved then |seen|
            else if LastSaved(seen, phone) < |seen| then LastSaved(seen, phone) else |seen| + 1
  {
    assert (seen + [x])[..|seen|] == seen;
  }

  lemma OneRowPerPhone(seen: seq<Sighting>, rows: seq<Row>, i: nat, j: nat)
    requires RowsFor(seen, rows) && i < j < |rows|
    ensures rows[i].phone != rows[j].phone
  {
    assert First(seen, rows[i].phone) < First(seen, rows[j].phone);
  }

  lemma SeenPhoneHasRow(seen: seq<Sighting>, rows: seq<Row>, phone: string)
    requires RowsFor(seen, rows)
    ensures First(seen, phone) < |seen| <==> Find(rows, phone) < |rows|
  {
    if First(seen, phone) < |seen| {
      assert Find(rows, seen[First(seen, phone)].phone) < |rows|;
    }
    if Find(rows, phone) < |rows| {
      assert Named(seen, rows[Find(rows, phone)]);
    }
  }

  lemma AddNames(seen: seq<Sighting>, x: Sighting, rows: seq<Row>, i: nat)
    requires RowsFor(seen, rows) && i < |Add(rows, x)|
    ensures Named(seen + [x], Add(rows, x)[i])
  {
    var at := Find(rows, x.phone);
    SeenPhoneHasRow(seen, rows, x.phone);
    if i < |rows| {
      assert Named(seen, rows[i]);
      AddKeepsPhones(x, rows, i);
      SeeOneMore(seen, x, rows[i].phone);
      if i < at < |rows| {
        OneRowPerPhone(seen, rows, i, at);
      } else if at < i {
        OneRowPerPhone(seen, rows, at, i);
      }
    } else {
      SeeOneMore(seen, x, x.phone);
    }
  }

  lemma AddFinds(seen: seq<Sighting>, x: Sighting, rows: seq<Row>, m: nat)
    requires RowsFor(seen, rows) && m <= |seen|
    ensures Find(Add(rows, x), (seen + [x])[m].phone) < |Add(rows, x)|
  {
    var i := Find(rows, (seen + [x])[m].phone);
    assert m < |seen| ==> Find(rows, seen[m].phone) < |rows|;
    FindsAny(Add(rows, x), i);
  }

  lemma AddKeepsPhones(x: Sighting, rows: seq<Row>, i: nat)
    requires i < |rows|
    ensures i < |Add(rows, x)| && Add(rows, x)[i].phone == rows[i].phone
  {
  }

  lemma AddKeepsOrder(seen: seq<Sighting>, x: Sighting, rows: seq<Row>, i: nat, j: nat)
    requires RowsFor(seen, rows) && i < j < |Add(rows, x)|
    ensures First(seen + [x], Add(rows, x)[i].phone) < First(seen + [x], Add(rows, x)[j].phone)
  {
    AddKeepsPhones(x, rows, i);
    assert Named(seen, rows[i]);
    SeeOneMore(seen, x, rows[i].phone);
    if j < |rows| {
      AddKeepsPhones(x, rows, j);
      assert Named(seen, rows[j]);
      SeeOneMore(seen, x, rows[j].phone);
    } else {
      SeenPhoneHasRow(seen, rows, x.phone);
      SeeOneMore(seen, x, x.phone);
    }
  }

  lemma AddKeepsRows(seen: seq<Sighting>, x: Sighting, rows: seq<Row>)
    requires RowsFor(seen, rows)
    ensures RowsFor(seen + [x], Add(rows, x))
  {
    forall i: nat | i < |Add(rows, x)| {
      AddNames(seen, x, rows, i);
    }
    forall m: nat | m <= |seen| {
      AddFinds(seen, x, rows, m);
    }
    forall i: nat, j: nat | i < j < |Add(rows, x)| {
      AddKeepsOrder(seen, x, rows, i, j);
    }
  }

  lemma SightStep(contacts: seq<Contact>, i: nat)
    requires i < |contacts|
    ensures Sightings(contacts[..i + 1]) ==
            Sightings(contacts[..i]) + if Usable(contacts[i]) then [SightingOf(contacts[i])] else []
  {
    assert contacts[..i + 1][..i] == contacts[..i];
  }

  /** `toContactRows`. */
  method ToContactRows(contacts: seq<Contact>) returns (rows: seq<Row>)
    ensures RowsFor(Sightings(contacts), rows)
  {
    rows := [];
    for i := 0 to |contacts|
      invariant RowsFor(Sightings(contacts[..i]), rows)
    {
      var contact := contacts[i];
      SightStep(contacts, i);
      ghost var seen := Sightings(contacts[..i]);
      var phone := PhoneOf(contact);
      if phone == "" {
        assert Sightings(contacts[..i + 1]) == seen;
        continue;
      }
      var name := NameOf(contact);
      if name == "" {
        assert Sightings(contacts[..i + 1]) == seen;
        continue;
      }
      AddKeepsRows(seen, SightingOf(contact), rows);
      if Find(rows, phone) == |rows| || contact.name != "" {
        rows := Set(rows, phone, name);
      }
    }
    assert contacts[..|contacts|] == contacts;
  }

  // ----- Messages -----

  /** messageTimestamp: absent, a number of seconds, or a protobuf Long of them. */
  datatype Stamp = Absent | Number(seconds: int) | Long(seconds: int)

  /** What describeMedia returns for an attachment; its label is `caption`. */
  datatype Media = Media(kind: string, mime: string, filename: string, size: int, caption: string)

  datatype Message = Message(
    jid: string, senderPn: string, fromMe: bool, id: string, pushName: string, text: string,
    media: Option<Media>, stamp: Stamp)

  datatype MessageRow = MessageRow(
    phone: string, text: string, outbound: bool, id: string, pushName: string,
    media: Option<Media>, preview: string, seconds: int) // 0 for no time

  predicate Shows(m: Message) { m.text != "" || m.media.Some? }

  predicate Imported(m: Message) { DirectPhone(m.jid, m.senderPn) != "" && Shows(m) }

  /** `previewFor`. */
  function PreviewFor(text: string, media: Option<Media>): string {
    if text != "" then text else if media.Some? then media.value.caption else ""
  }

  /** `messageTimestamp`, the live path's. */
  function LiveSeconds(stamp: Stamp): int {
    match stamp
    case Absent => 0
    case Number(n) => if n > 0 then n else 0
    case Long(n) => if n > 0 then n else 0
  }

  /** `Number(messageTimestamp?.low ?? messageTimestamp ?? 0)`: of a Long, the low word. */
  function HistorySeconds(stamp: Stamp): int {
    match stamp
    case Absent => 0
    case Number(n) => n
    case Long(n) => ToInt32(n)
  }

  function HistoryRow(m: Message): MessageRow {
    MessageRow(DirectPhone(m.jid, m.senderPn), m.text, m.fromMe, m.id, m.pushName, m.media,
      if m.text != "" then m.text else match m.media case None => "" case Some(media) => media.caption,
      HistorySeconds(m.stamp))
  }

  /** What handleInbound reports of a message, if it does not drop it. */
  function LiveRow(m: Message): Option<MessageRow> {
    match LiveNumber(m.jid, m.senderPn)
    case None => None
    case Some(phone) =>
      if Shows(m)
      then Some(MessageRow(phone, m.text, m.fromMe, m.id, m.pushName, m.media, PreviewFor(m.text, m.media),
                           LiveSeconds(m.stamp)))
      else None
  }

  /** The live path reports a message exactly when it can name the chat and there is something to
      show; the preview is the text, or the label of what comes without one. */
  lemma WhenLiveReports(m: Message)
    ensures LiveRow(m).Some? <==> LiveNumber(m.jid, m.senderPn).Some? && (m.text != "" || m.media.Some?)
    ensures LiveRow(m).Some? ==>
      LiveRow(m).value.preview == if m.text != "" then m.text else m.media.value.caption
  {
  }

  /** Whether the two paths agree on a message's time: a number must not be negative, and a
      Long must fit the low word, which it stops doing in January 2038. */
  predicate StampsAgree(stamp: Stamp) {
    match stamp
    case Absent => true
    case Number(n) => n >= 0
    case Long(n) => n < TWO_31 && (n >= 0 || n % TWO_32 == 0)
  }

  /** The row history makes of a message is the row the live path reports, exactly when they
      agree on its time; and all but the time always agrees. */
  lemma WhenRowsAgree(m: Message)
    requires Imported(m)
    ensures LiveRow(m).Some?
    ensures LiveRow(m).value.(seconds := HistorySeconds(m.stamp)) == HistoryRow(m)
    ensures LiveRow(m) == Some(HistoryRow(m)) <==> StampsAgree(m.stamp)
  {
    HistoryAgreesWithLive(m.jid, m.senderPn);
  }

  lemma StampAfter2038()
    ensures HistorySeconds(Long(TWO_31)) == -TWO_31 && LiveSeconds(Long(TWO_31)) == TWO_31
  {
  }

  function Kept(messages: seq<Message>): seq<Message> {
    if messages == [] then []
    else
      var last := messages[|messages| - 1];
      Kept(messages[..|messages| - 1]) + if Imported(last) then [last] else []
  }

  /** One message more is kept, after all others, if it is of a direct chat and has text or an
      attachment. */
  lemma WhatIsImported(before: seq<Message>, m: Message)
    ensures Kept([]) == []
    ensures Kept(before + [m]) == Kept(before) +
      if DirectPhone(m.jid, m.senderPn) != "" && (m.text != "" || m.media.Some?) then [m] else []
  {
    assert (before + [m])[..|before|] == before;
  }

  /** One row per message that passes, in order: the row the live path would report, with
      history's time. */
  predicate RowsOf(messages: seq<Message>, rows: seq<MessageRow>) {
    |rows| == |Kept(messages)| && forall i | 0 <= i < |rows| :: RowFor(Kept(messages)[i], rows[i])
  }

  predicate RowFor(m: Message, row: MessageRow) {
    && LiveRow(m).Some? && LiveRow(m).value.(seconds := row.seconds) == row
    && row.seconds == HistorySeconds(m.stamp)
  }

  /** `toMessageRows`. */
  method ToMessageRows(messages: seq<Message>) returns (rows: seq<MessageRow>)
    ensures RowsOf(messages, rows)
  {
    rows := [];
    for i := 0 to |messages|
      invariant RowsOf(messages[..i], rows)
    {
      var message := messages[i];
      assert messages[..i + 1][..i] == messages[..i];
      var phone := DirectPhone(message.jid, message.senderPn);
      if phone != "" && (message.text != "" || message.media.Some?) {
        WhenRowsAgree(message);
        rows := rows + [HistoryRow(message)];
      }
    }
    assert messages[..|messages|] == messages;
  }

  // ----- Batches -----

  function Flatten<T>(batches: seq<seq<T>>): seq<T> {
    if batches == [] then [] else Flatten(batches[..|batches| - 1]) + batches[|batches| - 1]
  }

  lemma BatchByBatch<T>(batches: seq<seq<T>>, last: seq<T>)
    ensures Flatten<T>([]) == [] && Flatten(batches + [last]) == Flatten(batches) + last
  {
    assert (batches + [last])[..|batches|] == batches;
  }

  /** Full batches and a nonempty last one. */
  predicate Batched<T>(batches: seq<seq<T>>, size: nat) {
    forall i | 0 <= i < |batches| ::
      0 < |batches[i]| <= size && (i < |batches| - 1 ==> |batches[i]| == size)
  }

  method Chunk<T>(items: seq<T>, size: nat) returns (out: seq<seq<T>>)
    requires size > 0
    ensures Flatten(out) == items && Batched(out, size)
  {
    out := [];
    var i := 0;
    while i < |items|
      invariant 0 <= i
      invariant Flatten(out) == items[..if i <= |items| then i else |items|]
      invariant Batched(out, size)
      invariant i <= |items| ==> forall k | 0 <= k < |out| :: |out[k]| == size
      decreases |items| - i
    {
      var end := if i + size <= |items| then i + size else |items|;
      assert items[..end] == items[..i] + items[i..end];
      assert (out + [items[i..end]])[..|out|] == out;
      out := out + [items[i..end]];
      i := i + size;
    }
  }

  const CONTACT_CHUNK := 400
  const MESSAGE_CHUNK := 200

  datatype Batch = Contacts(contacts: seq<Row>) | Messages(messages: seq<MessageRow>)

  function ContactsOf(sent: seq<Batch>): seq<Row> {
    if sent == [] then []
    else ContactsOf(sent[..|sent| - 1]) + if sent[|sent| - 1].Contacts? then sent[|sent| - 1].contacts else []
  }

  function MessagesOf(sent: seq<Batch>): seq<MessageRow> {
    if sent == [] then []
    else MessagesOf(sent[..|sent| - 1]) + if sent[|sent| - 1].Messages? then sent[|sent| - 1].messages else []
  }

  predicate Sized(b: Batch) {
    if b.Contacts? then 0 < |b.contacts| <= CONTACT_CHUNK else 0 < |b.messages| <= MESSAGE_CHUNK
  }

  lemma HowManyFit(b: Batch)
    ensures Sized(b) <==> if b.Contacts? then 1 <= |b.contacts| <= 400 else 1 <= |b.messages| <= 200
  {
  }

  lemma SentIsAppended(sent: seq<Batch>, b: Batch)
    ensures ContactsOf(sent + [b]) == ContactsOf(sent) + if b.Contacts? then b.contacts else []
    ensures MessagesOf(sent + [b]) == MessagesOf(sent) + if b.Messages? then b.messages else []
  {
    assert (sent + [b])[..|sent|] == sent;
  }

  lemma {:induction false} FlattenPrefix<T>(batches: seq<seq<T>>, i: nat)
    requires i <= |batches|
    ensures Flatten(batches[..i]) <= Flatten(batches)
  {
    if i < |batches| {
      FlattenPrefix(batches[..|batches| - 1], i);
      assert batches[..|batches| - 1][..i] == batches[..i];
    } else {
      assert batches[..i] == batches;
    }
  }

  /** The first loop of `importHistory`; the sync callback throws at its throwsAt-th call. */
  method SendContacts(rows: seq<Row>, throwsAt: nat) returns (sent: seq<Batch>, thrown: bool)
    ensures |sent| <= throwsAt && (thrown ==> |sent| == throwsAt)
    ensures ContactsOf(sent) <= rows && MessagesOf(sent) == []
    ensures !thrown ==> ContactsOf(sent) == rows
    ensures forall k | 0 <= k < |sent| :: Sized(sent[k])
  {
    sent, thrown := [], false;
    var batches := Chunk(rows, CONTACT_CHUNK);
    for i := 0 to |batches|
      invariant |sent| == i <= throwsAt
      invariant ContactsOf(sent) == Flatten(batches[..i]) && MessagesOf(sent) == []
      invariant forall k | 0 <= k < |sent| :: Sized(sent[k])
    {
      if |sent| == throwsAt {
        FlattenPrefix(batches, i);
        thrown := true;
        return;
      }
      SentIsAppended(sent, Contacts(batches[i]));
      assert batches[..i + 1][..i] == batches[..i];
      sent := sent + [Contacts(batches[i])];
    }
    assert batches[..|batches|] == batches;
  }

  /** The second loop, after the first has sent `before`. */
  method SendMessages(before: seq<Batch>, rows: seq<MessageRow>, throwsAt: nat)
    returns (sent: seq<Batch>, thrown: bool)
    requires |before| <= throwsAt && MessagesOf(before) == []
    requires forall k | 0 <= k < |before| :: Sized(before[k])
    ensures before <= sent && |sent| <= throwsAt && (thrown ==> |sent| == throwsAt)
    ensures ContactsOf(sent) == ContactsOf(before) && MessagesOf(sent) <= rows
    ensures !thrown ==> MessagesOf(sent) == rows
    ensures forall k | 0 <= k < |sent| :: Sized(sent[k])
  {
    sent, thrown := before, false;
    var batches := Chunk(rows, MESSAGE_CHUNK);
    for i := 0 to |batches|
      invariant before <= sent && |sent| == |before| + i <= throwsAt
      invariant ContactsOf(sent) == ContactsOf(before) && MessagesOf(sent) == Flatten(batches[..i])
      invariant forall k | 0 <= k < |sent| :: Sized(sent[k])
    {
      if |sent| == throwsAt {
        FlattenPrefix(batches, i);
        thrown := true;
        return;
      }
      SentIsAppended(sent, Messages(batches[i]));
      assert batches[..i + 1][..i] == batches[..i];
      sent := sent + [Messages(batches[i])];
    }
    assert batches[..|batches|] == batches;
  }

  /** `importHistory`: contacts before messages, every batch within its size; what a throw
      leaves behind is a prefix of the rows, and without one all of them are sent. */
  method ImportHistory(contacts: seq<Contact>, messages: seq<Message>, throwsAt: nat)
    returns (sent: seq<Batch>, thrown: bool, ghost contactRows: seq<Row>, ghost messageRows: seq<MessageRow>)
    ensures RowsFor(Sightings(contacts), contactRows) && RowsOf(messages, messageRows)
    ensures |sent| <= throwsAt && (thrown ==> |sent| == throwsAt)
    ensures ContactsOf(sent) <= contactRows && MessagesOf(sent) <= messageRows
    ensures !thrown ==> ContactsOf(sent) == contactRows && MessagesOf(sent) == messageRows
    ensures MessagesOf(sent) != [] ==> ContactsOf(sent) == contactRows
    ensures forall k | 0 <= k < |sent| :: Sized(sent[k])
  {
    var people := ToContactRows(contacts);
    var texts := ToMessageRows(messages);
    contactRows, messageRows := people, texts;
    sent, thrown := SendContacts(people, throwsAt);
    if !thrown {
      sent, thrown := SendMessages(sent, texts, throwsAt);
    }
  }
}
