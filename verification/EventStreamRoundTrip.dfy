/** Writing events in the wire format (section 9.2.5 of the WHATWG HTML Living Standard)
    and reading them back with the parser of EventStream. */
module EventStreamRoundTrip {
  import opened EventStream

  // ----- The writer -----

  function Lines(e: Event): seq<string> {
    ["event: " + e.name] + Labelled(Split(e.data))
  }

  function Labelled(ls: seq<string>): seq<string> {
    if ls == [] then [] else ["data: " + ls[0]] + Labelled(ls[1..])
  }

  function Raws(events: seq<Event>): seq<string> {
    if events == [] then [] else [Join(Lines(events[0]))] + Raws(events[1..])
  }

  /** Every line ends in "\n", and a blank line ends every event. */
  function Encode(events: seq<Event>): string { Unsplit(Raws(events), "") }

  predicate HasPair(s: string) {
    exists i :: 0 <= i < |s| - 1 && s[i] == '\r' && s[i + 1] == '\n'
  }

  /** The name has no line break, and writing name and data makes no "\r\n". */
  predicate Encodable(e: Event) {
    '\n' !in e.name && NoPairs(e)
  }

  /** Parsing the text in one chunk gives the events back and leaves nothing over. */
  predicate RoundTrips(events: seq<Event>) {
    var (raws, rest) := Drain(Buffered([Encode(events)]));
    ParseAll(raws) == events && rest == ""
  }

  // ----- Split and Join are inverse -----

  lemma {:induction false} JoinSplit(s: string)
    ensures Join(Split(s)) == s
  {
    if s != "" {
      JoinSplit(s[1..]);
      var r := Split(s[1..]);
      if s[0] == '\n' {
        assert ([""] + r)[1..] == r;
      } else {
        assert ([s[..1] + r[0]] + r[1..])[1..] == r[1..];
        assert s == s[..1] + s[1..];
      }
    }
  }

  lemma {:induction false} SplitJoin(lines: seq<string>)
    requires lines != [] && forall l | l in lines :: '\n' !in l
    ensures Split(Join(lines)) == lines
    decreases |lines|, |lines[0]|
  {
    var first, rest := lines[0], lines[1..];
    assert first in lines;
    if first == "" {
      if rest == [] {
        assert lines == [""];
      } else {
        assert Join(lines) == "\n" + Join(rest);
        assert Join(lines)[1..] == Join(rest);
        SplitJoin(rest);
      }
    } else {
      var shorter := [first[1..]] + rest;
      assert shorter[1..] == rest && first == first[..1] + first[1..];
      assert Join(lines) == first[..1] + Join(shorter);
      assert Join(lines)[1..] == Join(shorter);
      assert first[0] in first;
      assert forall c | c in first[1..] :: c in first;
      SplitJoin(shorter);
    }
  }

  lemma {:induction false} JoinSnoc(ls: seq<string>, l: string)
    ensures Join(ls + [l]) == if ls == [] then l else Join(ls) + "\n" + l
  {
    if ls != [] {
      assert (ls + [l])[1..] == ls[1..] + [l];
      JoinSnoc(ls[1..], l);
    }
  }

  /** A raw event: its lines are what newlines part, its data lines joined by newlines. */
  lemma WhatAnEventSays(lines: seq<string>)
    requires lines != [] && forall l | l in lines :: '\n' !in l
    ensures Parse(Join(lines)) == Event(NameOf(lines), Join(DataOf(lines)))
  {
    SplitJoin(lines);
  }

  // ----- Reading one written event -----

  lemma ReadData(prefix: seq<string>, l: string)
    ensures NameOf(prefix + ["data: " + l]) == NameOf(prefix)
    ensures DataOf(prefix + ["data: " + l]) == DataOf(prefix) + [l]
  {
    var line := "data: " + l;
    assert (prefix + [line])[..|prefix|] == prefix;
    assert EVENT[0] != line[0];
    assert line[..5] == DATA && line[5..] == " " + l;
  }

  lemma InsertOne(a: seq<string>, l: string, b: seq<string>)
    ensures a + ([l] + b) == (a + [l]) + b
  {
  }

  lemma {:induction false} ReadLabelled(prefix: seq<string>, ls: seq<string>)
    ensures NameOf(prefix + Labelled(ls)) == NameOf(prefix)
    ensures DataOf(prefix + Labelled(ls)) == DataOf(prefix) + ls
    decreases ls
  {
    if ls == [] {
      assert prefix + [] == prefix;
    } else {
      var line, rest := "data: " + ls[0], Labelled(ls[1..]);
      ReadData(prefix, ls[0]);
      ReadLabelled(prefix + [line], ls[1..]);
      InsertOne(prefix, line, rest);
      InsertOne(DataOf(prefix), ls[0], ls[1..]);
      assert Labelled(ls) == [line] + rest && ls == [ls[0]] + ls[1..];
    }
  }

  lemma ReadEvent(e: Event)
    requires '\n' !in e.name
    ensures Parse(Join(Lines(e))) == e
  {
    var head := "event: " + e.name;
    LabelledClean(Split(e.data));
    SplitJoin(Lines(e));
    assert head[..6] == EVENT && head[6..] == " " + e.name;
    assert NameOf([head]) == e.name && DataOf([head]) == [];
    ReadLabelled([head], Split(e.data));
    assert DataOf(Lines(e)) == Split(e.data);
    JoinSplit(e.data);
  }

  // ----- Written events are found again -----

  predicate Clean(raw: string) {
    FirstSep(raw) == -1 && raw != "" && raw[0] != '\n' && raw[|raw| - 1] != '\n'
  }

  lemma {:induction false} LabelledClean(ls: seq<string>)
    requires forall l | l in ls :: '\n' !in l
    ensures forall l | l in Labelled(ls) :: l != "" && '\n' !in l
  {
    if ls != [] {
      LabelledClean(ls[1..]);
    }
  }

  lemma {:induction false} JoinClean(lines: seq<string>)
    requires lines != [] && forall l | l in lines :: l != "" && '\n' !in l
    ensures Clean(Join(lines))
  {
    var first := lines[0];
    assert first in lines;
    assert first[0] in first && first[|first| - 1] in first;
    assert forall i | 0 <= i < |first| :: first[i] in first;
    if |lines| > 1 {
      var rest := Join(lines[1..]);
      assert forall l | l in lines[1..] :: l in lines;
      JoinClean(lines[1..]);
      var text := first + "\n" + rest;
      var i := FirstSep(text);
      NoSepBefore(rest, i - |first| - 1);
      assert SepAt(text, i) ==> SepAt(rest, i - |first| - 1);
    }
  }

  lemma SepAfterClean(raw: string, rest: string)
    requires Clean(raw)
    ensures FirstSep(raw + "\n\n" + rest) == |raw|
  {
    var s := raw + "\n\n" + rest;
    assert SepAt(s, |raw|);
    FirstSepIsFirst(s, |raw|);
    NoSepBefore(raw, FirstSep(s));
    assert FirstSep(s) < |raw| && SepAt(s, FirstSep(s)) ==> SepAt(raw, FirstSep(s));
  }

  lemma {:induction false} DrainUnsplit(raws: seq<string>)
    requires forall raw | raw in raws :: Clean(raw)
    ensures Drain(Unsplit(raws, "")).0 == raws && Drain(Unsplit(raws, "")).1 == ""
  {
    if raws != [] {
      assert raws[0] in raws && forall raw | raw in raws[1..] :: raw in raws;
      DrainUnsplit(raws[1..]);
      var s, tail := Unsplit(raws, ""), Unsplit(raws[1..], "");
      SepAfterClean(raws[0], tail);
      assert s == raws[0] + "\n\n" + tail;
      assert s[..|raws[0]|] == raws[0] && s[|raws[0]| + 2..] == tail;
      DrainStep(s, |raws[0]|, tail);
      assert raws == [raws[0]] + raws[1..];
    }
  }

  /** One written event is clean, and is read back as itself. */
  lemma CleanAndRead(e: Event)
    requires '\n' !in e.name
    ensures Clean(Join(Lines(e))) && Parse(Join(Lines(e))) == e
  {
    LabelledClean(Split(e.data));
    JoinClean(Lines(e));
    ReadEvent(e);
  }

  lemma {:induction false} ReadEvents(events: seq<Event>)
    requires forall e | e in events :: '\n' !in e.name
    ensures forall raw | raw in Raws(events) :: Clean(raw)
    ensures ParseAll(Raws(events)) == events
  {
    if events != [] {
      CleanAndRead(events[0]);
      ReadEvents(events[1..]);
      ParseAllConcat([Join(Lines(events[0]))], Raws(events[1..]));
      assert events == [events[0]] + events[1..];
    }
  }

  // ----- How many "\r\n" a text loses to normalisation -----

  function Lost(s: string): int { |s| - |Normalise(s)| }

  /** How many '\r' a text has. */
  function CRs(s: string): nat {
    if s == "" then 0 else CRs(s[1..]) + if s[0] == '\r' then 1 else 0
  }

  lemma {:induction false} CRsPlus(a: string, b: string)
    ensures CRs(a + b) == CRs(a) + CRs(b)
  {
    if a == "" {
      assert a + b == b;
    } else {
      assert (a + b)[1..] == a[1..] + b;
      CRsPlus(a[1..], b);
    }
  }

  lemma {:induction false} CRsNone(s: string)
    requires '\r' !in s
    ensures CRs(s) == 0
  {
    if s != "" {
      assert s[0] in s;
      CRsNone(s[1..]);
    }
  }

  lemma {:induction false} LostMeans(s: string)
    ensures Lost(s) >= 0
    ensures Lost(s) == 0 <==> Normalise(s) == s
    ensures Lost(s) == 0 <==> !HasPair(s)
    ensures CRs(Normalise(s)) == CRs(s) - Lost(s)
  {
    if s != "" {
      LostMeans(s[1..]);
      CRsPlus(s[..1], Normalise(s[1..]));
      if CutsPair(s[..1], s[1..]) {
        assert s[0] == '\r' && s[1] == '\n' && HasPair(s);
      } else {
        if HasPair(s[1..]) {
          var i :| 0 <= i < |s[1..]| - 1 && s[1..][i] == '\r' && s[1..][i + 1] == '\n';
          assert s[i + 1] == '\r' && s[i + 2] == '\n';
        }
        if HasPair(s) {
          var i :| 0 <= i < |s| - 1 && s[i] == '\r' && s[i + 1] == '\n';
          assert i > 0 && s[1..][i - 1] == '\r' && s[1..][i] == '\n';
        }
      }
    }
  }

  lemma LostPlus(a: string, b: string)
    ensures Lost(a + b) == Lost(a) + Lost(b) + if CutsPair(a, b) then 1 else 0
  {
    NormaliseLength(a, b);
  }

  function LostLines(lines: seq<string>): int {
    if lines == [] then 0 else Lost(lines[0] + "\n") + LostLines(lines[1..])
  }

  lemma {:induction false} LostJoin(lines: seq<string>)
    requires lines != []
    ensures Lost(Join(lines) + "\n") == LostLines(lines)
  {
    if |lines| > 1 {
      var rest := Join(lines[1..]) + "\n";
      LostJoin(lines[1..]);
      assert Join(lines) + "\n" == (lines[0] + "\n") + rest;
      LostPlus(lines[0] + "\n", rest);
    }
  }

  lemma {:induction false} LostLabelled(ls: seq<string>)
    ensures LostLines(Labelled(ls)) == LostLines(ls)
  {
    if ls != [] {
      LostPrefix("data: ", ls[0] + "\n");
      assert "data: " + ls[0] + "\n" == "data: " + (ls[0] + "\n");
      LostLabelled(ls[1..]);
    }
  }

  lemma LostPrefix(prefix: string, s: string)
    requires '\r' !in prefix
    ensures Lost(prefix + s) == Lost(s)
  {
    LostPlus(prefix, s);
    LostMeans(prefix);
  }

  lemma LostEvent(e: Event)
    ensures Lost(Join(Lines(e)) + "\n\n") == Lost(e.name + "\n") + Lost(e.data + "\n")
  {
    LostJoin(Lines(e));
    LostLabelled(Split(e.data));
    LostJoin(Split(e.data));
    JoinSplit(e.data);
    LostPrefix("event: ", e.name + "\n");
    assert "event: " + e.name + "\n" == "event: " + (e.name + "\n");
    assert Lines(e)[1..] == Labelled(Split(e.data));
    assert Join(Lines(e)) + "\n\n" == (Join(Lines(e)) + "\n") + "\n";
    LostPlus(Join(Lines(e)) + "\n", "\n");
    LostMeans("\n");
  }

  predicate NoPairs(e: Event) { !HasPair(e.name + "\n") && !HasPair(e.data + "\n") }

  lemma LostEncodeCons(e: Event, events: seq<Event>)
    ensures Lost(Encode([e] + events)) == Lost(e.name + "\n") + Lost(e.data + "\n") + Lost(Encode(events))
  {
    var text := Join(Lines(e)) + "\n\n";
    assert ([e] + events)[1..] == events;
    var raw := Join(Lines(e));
    assert Raws([e] + events)[1..] == Raws(events);
    assert Encode([e] + events) == text + Encode(events);
    LostPlus(text, Encode(events));
    LostEvent(e);
  }

  lemma {:induction false} LostEncode(events: seq<Event>)
    ensures Lost(Encode(events)) >= 0
    ensures Lost(Encode(events)) == 0 <==> forall e | e in events :: NoPairs(e)
  {
    if events != [] {
      var e := events[0];
      assert events == [e] + events[1..];
      LostEncodeCons(e, events[1..]);
      LostMeans(e.name + "\n");
      LostMeans(e.data + "\n");
      LostEncode(events[1..]);
      assert e in events && forall x | x in events[1..] :: x in events;
      assert NoPairs(e) <==> Lost(e.name + "\n") + Lost(e.data + "\n") == 0;
      assert (forall x | x in events :: NoPairs(x)) <==>
             NoPairs(e) && forall x | x in events[1..] :: NoPairs(x);
    }
  }

  // ----- Parsing only keeps '\r's, it makes none -----

  lemma CRsOfValue(line: string, n: nat)
    requires n <= |line|
    ensures CRs(StripSpace(line[n..])) <= CRs(line)
  {
    CRsPlus(line[..n], line[n..]);
    assert line == line[..n] + line[n..];
  }

  lemma {:induction false} CRsOfLines(lines: seq<string>)
    ensures CRs(NameOf(lines)) + CRs(Join(DataOf(lines))) <= CRs(Join(lines))
  {
    if lines == [] {
      CRsNone("message");
    } else {
      var init, last := lines[..|lines| - 1], lines[|lines| - 1];
      assert lines == init + [last];
      CRsOfLines(init);
      CRsOfSnoc(init, last);
      if EVENT <= last {
        CRsOfValue(last, 6);
        assert DataOf(lines) == DataOf(init);
      } else if DATA <= last {
        CRsOfValue(last, 5);
        CRsOfSnoc(DataOf(init), StripSpace(last[5..]));
      } else {
        assert DataOf(lines) == DataOf(init);
      }
    }
  }

  lemma CRsOfSnoc(ls: seq<string>, l: string)
    ensures CRs(Join(ls + [l])) == CRs(Join(ls)) + CRs(l)
  {
    JoinSnoc(ls, l);
    if ls != [] {
      CRsPlus(Join(ls) + "\n", l);
      CRsPlus(Join(ls), "\n");
    }
  }

  lemma CRsOfCons(l: string, ls: seq<string>)
    ensures CRs(Join([l] + ls)) == CRs(l) + CRs(Join(ls))
  {
    assert ([l] + ls)[1..] == ls;
    if ls != [] {
      CRsPlus(l + "\n", Join(ls));
      CRsPlus(l, "\n");
    }
  }

  function CRsOfEvents(events: seq<Event>): nat {
    if events == [] then 0
    else CRs(events[0].name) + CRs(events[0].data) + CRsOfEvents(events[1..])
  }

  lemma {:induction false} CRsOfParsed(raws: seq<string>, rest: string)
    ensures CRsOfEvents(ParseAll(raws)) <= CRs(Unsplit(raws, rest))
  {
    if raws != [] {
      JoinSplit(raws[0]);
      CRsOfLines(Split(raws[0]));
      CRsOfParsed(raws[1..], rest);
      CRsPlus(raws[0] + "\n\n", Unsplit(raws[1..], rest));
      CRsPlus(raws[0], "\n\n");
      assert Unsplit(raws, rest) == (raws[0] + "\n\n") + Unsplit(raws[1..], rest);
      assert ParseAll(raws)[1..] == ParseAll(raws[1..]);
    }
  }

  lemma {:induction false} CRsOfLabelled(ls: seq<string>)
    ensures CRs(Join(Labelled(ls))) == CRs(Join(ls))
  {
    if ls != [] {
      CRsOfLabelled(ls[1..]);
      CRsOfCons("data: " + ls[0], Labelled(ls[1..]));
      CRsOfCons(ls[0], ls[1..]);
      assert ls == [ls[0]] + ls[1..];
      CRsPlus("data: ", ls[0]);
      CRsNone("data: ");
    }
  }

  lemma {:induction false} CRsOfEncode(events: seq<Event>)
    ensures CRs(Encode(events)) == CRsOfEvents(events)
  {
    if events != [] {
      var e := events[0];
      CRsOfLabelled(Split(e.data));
      JoinSplit(e.data);
      CRsOfCons("event: " + e.name, Labelled(Split(e.data)));
      CRsPlus("event: ", e.name);
      CRsNone("event: ");
      CRsOfEncode(events[1..]);
      var raw := Join(Lines(e));
      CRsPlus(raw + "\n\n", Encode(events[1..]));
      CRsPlus(raw, "\n\n");
      CRsNone("\n\n");
    }
  }

  // ----- The round trip -----

  lemma BufferedWhole(text: string)
    ensures Buffered([text]) == Normalise(text)
  {
    assert [text][1..] == [];
  }

  lemma NamesHaveNoBreak(events: seq<Event>, raws: seq<string>)
    requires ParseAll(raws) == events
    ensures forall e | e in events :: '\n' !in e.name
  {
    forall e | e in events ensures '\n' !in e.name {
      var i :| 0 <= i < |events| && events[i] == e;
      NameHasNoBreak(Split(raws[i]));
    }
  }

  lemma {:induction false} NameHasNoBreak(lines: seq<string>)
    requires forall l | l in lines :: '\n' !in l
    ensures '\n' !in NameOf(lines)
  {
    if lines != [] {
      assert lines[|lines| - 1] in lines;
      NameHasNoBreak(lines[..|lines| - 1]);
    }
  }

  /** Exactly which event lists survive being written and read in one chunk. */
  lemma RoundTrip(events: seq<Event>)
    ensures RoundTrips(events) <==> forall e | e in events :: Encodable(e)
  {
    var text := Encode(events);
    BufferedWhole(text);
    LostEncode(events);
    LostMeans(text);
    if forall e | e in events :: Encodable(e) {
      ReadEvents(events);
      DrainUnsplit(Raws(events));
    }
    if RoundTrips(events) {
      var (raws, rest) := Drain(Normalise(text));
      NamesHaveNoBreak(events, raws);
      SplitLossless(Normalise(text));
      CRsOfParsed(raws, rest);
      CRsOfEncode(events);
    }
  }

  lemma {:induction false} NothingToSplit(chunks: seq<string>)
    requires Lost(Concat(chunks)) == 0
    ensures NoSplitPair(chunks)
  {
    if chunks != [] {
      LostPlus(chunks[0], Concat(chunks[1..]));
      LostMeans(chunks[0]);
      LostMeans(Concat(chunks[1..]));
      NothingToSplit(chunks[1..]);
    }
  }

  /** Encodable events arrive intact however the network cuts their text. */
  lemma RoundTripInAnyChunks(events: seq<Event>, chunks: seq<string>)
    requires forall e | e in events :: Encodable(e)
    requires Concat(chunks) == Encode(events)
    ensures ParseAll(Drain(Buffered(chunks)).0) == events && Drain(Buffered(chunks)).1 == ""
  {
    LostEncode(events);
    NothingToSplit(chunks);
    ChunkIndependence(chunks);
    RoundTrip(events);
  }

  /** Data without '\r' and names without line breaks are always encodable. */
  lemma PlainTextIsEncodable(e: Event)
    requires '\n' !in e.name && '\r' !in e.name && '\r' !in e.data
    ensures Encodable(e)
  {
    assert forall i | 0 <= i < |e.name| :: e.name[i] in e.name;
    assert forall i | 0 <= i < |e.data| :: e.data[i] in e.data;
  }
}
