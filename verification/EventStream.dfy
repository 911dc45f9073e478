/** The streaming parser of `streamEvents`: text arrives in arbitrary chunks, complete
    events (raw text up to a blank line) are dispatched, the rest stays in a buffer. */
module EventStream {

  datatype Event = Event(name: string, data: string)

  // ----- The JavaScript string operations the parser calls -----

  /** `s.replace(/\r\n/g, "\n")`: every '\r' directly before a '\n' goes. */
  function Normalise(s: string): string {
    if s == "" then ""
    else if CutsPair(s[..1], s[1..]) then Normalise(s[1..])
    else s[..1] + Normalise(s[1..])
  }

  /** Gluing a and b makes a "\r\n" that neither of them has. */
  predicate CutsPair(a: string, b: string) {
    a != "" && b != "" && a[|a| - 1] == '\r' && b[0] == '\n'
  }

  predicate SepAt(s: string, i: int) {
    0 <= i && i + 1 < |s| && s[i] == '\n' && s[i + 1] == '\n'
  }

  /** `s.indexOf("\n\n")`. */
  function FirstSep(s: string): (r: int)
    ensures -1 <= r
    ensures r >= 0 ==> SepAt(s, r)
  {
    if |s| < 2 then -1
    else if SepAt(s, 0) then 0
    else
      var r := FirstSep(s[1..]);
      if r < 0 then -1 else r + 1
  }

  lemma {:induction false} FirstSepIsFirst(s: string, i: int)
    requires SepAt(s, i)
    ensures 0 <= FirstSep(s) <= i
  {
    if i > 0 && !SepAt(s, 0) {
      assert SepAt(s[1..], i - 1);
      FirstSepIsFirst(s[1..], i - 1);
    }
  }

  /** `s.split("\n")`. */
  function Split(s: string): (lines: seq<string>)
    ensures |lines| >= 1
    ensures forall l | l in lines :: '\n' !in l
  {
    if s == "" then [""]
    else if s[0] == '\n' then [""] + Split(s[1..])
    else
      var r := Split(s[1..]);
      [s[..1] + r[0]] + r[1..]
  }

  /** `lines.join("\n")`. */
  function Join(lines: seq<string>): string {
    if lines == [] then ""
    else if |lines| == 1 then lines[0]
    else lines[0] + "\n" + Join(lines[1..])
  }

  /** `value.replace(/^ /, "")`. */
  function StripSpace(s: string): string {
    if " " <= s then s[1..] else s
  }

  // ----- Specification: one event, then the whole buffered text -----

  const EVENT := "event:"
  const DATA := "data:"

  /** The value of the last `event:` line, else "message". */
  function NameOf(lines: seq<string>): string {
    if lines == [] then "message"
    else
      var last := lines[|lines| - 1];
      if EVENT <= last then StripSpace(last[6..]) else NameOf(lines[..|lines| - 1])
  }

  /** The values of the `data:` lines, in order. */
  function DataOf(lines: seq<string>): seq<string> {
    if lines == [] then []
    else
      var last := lines[|lines| - 1];
      DataOf(lines[..|lines| - 1]) +
      if !(EVENT <= last) && DATA <= last then [StripSpace(last[5..])] else []
  }

  function Parse(raw: string): Event {
    Event(NameOf(Split(raw)), Join(DataOf(Split(raw))))
  }

  /** What each line of a raw event adds: the last name given counts, "message" if none is; one
      space after the colon does not belong to the value; other lines are ignored. */
  lemma LineByLine(prefix: seq<string>, line: string, value: string)
    ensures NameOf([]) == "message" && DataOf([]) == [] && Join([]) == ""
    ensures line == "event: " + value || (line == "event:" + value && !(" " <= value)) ==>
      NameOf(prefix + [line]) == value && DataOf(prefix + [line]) == DataOf(prefix)
    ensures line == "data: " + value || (line == "data:" + value && !(" " <= value)) ==>
      NameOf(prefix + [line]) == NameOf(prefix) && DataOf(prefix + [line]) == DataOf(prefix) + [value]
    ensures !("event:" <= line) && !("data:" <= line) ==>
      NameOf(prefix + [line]) == NameOf(prefix) && DataOf(prefix + [line]) == DataOf(prefix)
  {
    assert (prefix + [line])[..|prefix|] == prefix;
    if line == "event: " + value || line == "event:" + value {
      assert line[..6] == "event:" && line[6..] == if line == "event: " + value then " " + value else value;
    }
    if line == "data: " + value || line == "data:" + value {
      assert line[..5] == "data:" && line[0] != "event:"[0];
      assert line[5..] == if line == "data: " + value then " " + value else value;
    }
  }

  function ParseAll(raws: seq<string>): seq<Event> {
    seq(|raws|, i requires 0 <= i < |raws| => Parse(raws[i]))
  }

  lemma ParseAllConcat(a: seq<string>, b: seq<string>)
    ensures ParseAll(a + b) == ParseAll(a) + ParseAll(b)
  {
  }

  /** Complete raw events of a text, and the leftover after the last blank line. */
  function Drain(s: string): (r: (seq<string>, string))
    ensures FirstSep(r.1) == -1
    decreases |s|
  {
    var sep := FirstSep(s);
    if sep < 0 then ([], s)
    else
      var (raws, rest) := Drain(s[sep + 2..]);
      ([s[..sep]] + raws, rest)
  }

  function Concat(chunks: seq<string>): string {
    if chunks == [] then "" else chunks[0] + Concat(chunks[1..])
  }

  /** What has entered the buffer: each chunk is normalised on its own. */
  function Buffered(chunks: seq<string>): string {
    if chunks == [] then "" else Normalise(chunks[0]) + Buffered(chunks[1..])
  }

  /** No chunk boundary lies between a '\r' and a '\n'. */
  predicate NoSplitPair(chunks: seq<string>) {
    chunks == [] ||
    (!CutsPair(chunks[0], Concat(chunks[1..])) && NoSplitPair(chunks[1..]))
  }

  // ----- The loops of the source -----

  method ParseEvent(rawEvent: string) returns (event: Event)
    ensures event == Parse(rawEvent)
  {
    var eventType := "message";
    var dataLines: seq<string> := [];
    var lines := Split(rawEvent);
    for i := 0 to |lines|
      invariant eventType == NameOf(lines[..i])
      invariant dataLines == DataOf(lines[..i])
    {
      var line := lines[i];
      assert lines[..i + 1][..i] == lines[..i];
      if EVENT <= line {
        eventType := StripSpace(line[6..]);
      } else if DATA <= line {
        dataLines := dataLines + [StripSpace(line[5..])];
      }
    }
    assert lines[..|lines|] == lines;
    event := Event(eventType, Join(dataLines));
  }

  /** The inner loop: dispatch every complete event in the buffer. */
  method DispatchComplete(text: string) returns (events: seq<Event>, buffer: string)
    ensures events == ParseAll(Drain(text).0) && buffer == Drain(text).1
  {
    events, buffer := [], text;
    ghost var raws: seq<string> := [];
    var sep := FirstSep(buffer);
    while sep != -1
      invariant -1 <= sep == FirstSep(buffer)
      invariant Drain(text).0 == raws + Drain(buffer).0 && Drain(text).1 == Drain(buffer).1
      invariant events == ParseAll(raws)
      decreases |buffer|
    {
      var rawEvent := buffer[..sep];
      DrainStep(buffer, sep, buffer[sep + 2..]);
      assert raws + ([rawEvent] + Drain(buffer[sep + 2..]).0) == raws + [rawEvent] + Drain(buffer[sep + 2..]).0;
      buffer := buffer[sep + 2..];
      var event := ParseEvent(rawEvent);
      ParseAllConcat(raws, [rawEvent]);
      raws := raws + [rawEvent];
      events := events + [event];
      sep := FirstSep(buffer);
    }
  }

  /** The read loop: the events dispatched so far and the buffer depend only on the
      text that entered the buffer, never on where it was cut. */
  method StreamEvents(chunks: seq<string>) returns (events: seq<Event>, buffer: string)
    ensures events == ParseAll(Drain(Buffered(chunks)).0)
    ensures buffer == Drain(Buffered(chunks)).1
    ensures FirstSep(buffer) == -1
  {
    events, buffer := [], "";
    for i := 0 to |chunks|
      invariant events == ParseAll(Drain(Buffered(chunks[..i])).0)
      invariant buffer == Drain(Buffered(chunks[..i])).1
    {
      BufferedSnoc(chunks[..i], chunks[i]);
      assert chunks[..i + 1] == chunks[..i] + [chunks[i]];
      DrainAppend(Buffered(chunks[..i]), Normalise(chunks[i]));
      ParseAllConcat(Drain(Buffered(chunks[..i])).0, Drain(buffer + Normalise(chunks[i])).0);
      buffer := buffer + Normalise(chunks[i]);
      var more;
      more, buffer := DispatchComplete(buffer);
      events := events + more;
    }
    assert chunks[..|chunks|] == chunks;
  }

  // ----- Chunk independence -----

  lemma {:induction false} BufferedSnoc(chunks: seq<string>, c: string)
    ensures Buffered(chunks + [c]) == Buffered(chunks) + Normalise(c)
  {
    if chunks == [] {
      assert [c][1..] == [];
    } else {
      assert (chunks + [c])[1..] == chunks[1..] + [c];
      BufferedSnoc(chunks[1..], c);
    }
  }

  lemma FirstSepAppend(a: string, b: string)
    requires FirstSep(a) >= 0
    ensures FirstSep(a + b) == FirstSep(a)
  {
    var sep := FirstSep(a);
    assert SepAt(a + b, sep);
    FirstSepIsFirst(a + b, sep);
    NoSepBefore(a, FirstSep(a + b));
    assert FirstSep(a + b) < sep && SepAt(a + b, FirstSep(a + b)) ==> SepAt(a, FirstSep(a + b));
  }

  lemma NoSepBefore(s: string, i: int)
    ensures SepAt(s, i) ==> 0 <= FirstSep(s) <= i
  {
    if SepAt(s, i) {
      FirstSepIsFirst(s, i);
    }
  }

  lemma DrainStep(s: string, sep: nat, tail: string)
    requires FirstSep(s) == sep && tail == s[sep + 2..]
    ensures Drain(s).0 == [s[..sep]] + Drain(tail).0 && Drain(s).1 == Drain(tail).1
  {
  }

  lemma DrainNone(s: string)
    requires FirstSep(s) == -1
    ensures Drain(s).0 == [] && Drain(s).1 == s
  {
  }

  lemma Regroup<T>(x: T, y: seq<T>, z: seq<T>)
    ensures [x] + (y + z) == [x] + y + z
  {
  }

  /** Draining a text and then a continuation is draining both at once. */
  lemma {:induction false} DrainAppend(a: string, b: string)
    ensures Drain(a + b).0 == Drain(a).0 + Drain(Drain(a).1 + b).0
    ensures Drain(a + b).1 == Drain(Drain(a).1 + b).1
    decreases |a|
  {
    var sep := FirstSep(a);
    if sep < 0 {
      DrainNone(a);
    } else {
      var tail := a[sep + 2..];
      FirstSepAppend(a, b);
      DrainAppend(tail, b);
      DrainAppendStep(a, b, sep, tail, Drain(tail), Drain(Drain(tail).1 + b));
    }
  }

  lemma DrainAppendStep(a: string, b: string, sep: nat, tail: string, first: (seq<string>, string),
      second: (seq<string>, string))
    requires FirstSep(a) == FirstSep(a + b) == sep && tail == a[sep + 2..]
    requires Drain(tail) == first && Drain(first.1 + b) == second
    requires Drain(tail + b).0 == first.0 + second.0 && Drain(tail + b).1 == second.1
    ensures Drain(a + b).0 == Drain(a).0 + second.0 && Drain(a + b).1 == second.1
    ensures Drain(a).1 == first.1
  {
    assert (a + b)[..sep] == a[..sep] && (a + b)[sep + 2..] == tail + b;
    DrainStep(a, sep, tail);
    DrainStep(a + b, sep, tail + b);
    Regroup(a[..sep], first.0, second.0);
  }

  lemma {:induction false} NormaliseLength(a: string, b: string)
    ensures |Normalise(a + b)| == |Normalise(a)| + |Normalise(b)| - if CutsPair(a, b) then 1 else 0
  {
    if |a| <= 1 {
      assert a + b == if a == "" then b else [a[0]] + b;
    } else {
      assert (a + b)[..1] == a[..1] && (a + b)[1..] == a[1..] + b;
      NormaliseLength(a[1..], b);
    }
  }

  lemma {:induction false} NormaliseConcat(a: string, b: string)
    requires !CutsPair(a, b)
    ensures Normalise(a + b) == Normalise(a) + Normalise(b)
  {
    if |a| <= 1 {
      assert a + b == if a == "" then b else [a[0]] + b;
    } else {
      assert (a + b)[..1] == a[..1] && (a + b)[1..] == a[1..] + b;
      NormaliseConcat(a[1..], b);
    }
  }

  lemma {:induction false} BufferedLength(chunks: seq<string>)
    ensures |Buffered(chunks)| >= |Normalise(Concat(chunks))|
    ensures |Buffered(chunks)| == |Normalise(Concat(chunks))| <==> NoSplitPair(chunks)
  {
    if chunks != [] {
      BufferedLength(chunks[1..]);
      NormaliseLength(chunks[0], Concat(chunks[1..]));
    }
  }

  lemma {:induction false} BufferedNormalises(chunks: seq<string>)
    requires NoSplitPair(chunks)
    ensures Buffered(chunks) == Normalise(Concat(chunks))
  {
    if chunks != [] {
      BufferedNormalises(chunks[1..]);
      NormaliseConcat(chunks[0], Concat(chunks[1..]));
    }
  }

  /** The split is lossless: raw events, their separators and the leftover spell the text. */
  function Unsplit(raws: seq<string>, rest: string): string {
    if raws == [] then rest else raws[0] + "\n\n" + Unsplit(raws[1..], rest)
  }

  lemma {:induction false} SplitLossless(s: string)
    ensures Unsplit(Drain(s).0, Drain(s).1) == s
    decreases |s|
  {
    var sep := FirstSep(s);
    if sep >= 0 {
      SplitLossless(s[sep + 2..]);
      assert s == s[..sep] + "\n\n" + s[sep + 2..];
      assert Drain(s).0[1..] == Drain(s[sep + 2..]).0;
    }
  }

  /** The chunked stream is cut into the same raw events with the same leftover as the
      text in one chunk, exactly when no boundary lies between a '\r' and a '\n'. */
  lemma ChunkIndependence(chunks: seq<string>)
    ensures Drain(Buffered(chunks)) == Drain(Buffered([Concat(chunks)])) <==> NoSplitPair(chunks)
  {
    var whole := Concat(chunks);
    assert [whole][1..] == [];
    assert Buffered([whole]) == Normalise(whole);
    BufferedLength(chunks);
    if NoSplitPair(chunks) {
      BufferedNormalises(chunks);
    }
    SplitLossless(Buffered(chunks));
    SplitLossless(Normalise(whole));
  }

  /** A boundary inside "\r\n" loses a blank line, and with it an event. */
  lemma SplitPairLosesEvent()
    ensures var chunks := ["\n\r", "\n"];
            |Drain(Buffered([Concat(chunks)])).0| == 1 && |Drain(Buffered(chunks)).0| == 0
  {
    var chunks := ["\n\r", "\n"];
    assert chunks[1..] == ["\n"] && ["\n"][1..] == [] && [Concat(chunks)][1..] == [];
    var t := "\n\r\n";
    assert Concat(chunks) == t;
    assert t[1..] == "\r\n" && t[1..][1..] == "\n" && "\n"[1..] == "" && "\n"[..1] == "\n";
    assert Normalise("\n") == "\n" && Normalise("\r\n") == "\n";
    assert Normalise(t) == "\n\n";
    assert "\n\r"[1..] == "\r" && Normalise("\r") == "\r" && Normalise("\n\r") == "\n\r";
    assert Buffered(chunks) == t;
    assert SepAt("\n\n", 0) && !SepAt(t, 0) && !SepAt(t, 1);
    assert "\n\n"[2..] == "";
  }
}
