/** The microphone under the voice call (frontend/src/hooks/useVoice.ts), in a browser with
    speech recognition: when does the end of a turn leave a recogniser running? Every callback
    keeps the `listening` of the render that made it. */
module VoiceMic {
  /** `listening` is the state with every queued update, `rendered` its value in the last
      render. `resumes` holds one flag for each callback outstanding that will resume
      listening: the `listening` of the render that made it. */
  datatype Mic = Mic(rendered: bool, listening: bool, running: set<nat>, made: nat, resumes: multiset<bool>)

  /** What a turn that has ended comes to: a short silence, which re-arms the microphone; an
      answer or a check-in, whose callback will resume listening; or nothing. */
  datatype Turn = ShortSilence | Answered | Dropped

  /** `Hush` is stopListening, `Opens` an exchange begun by startCall or by typing, `Wakes` a
      callback that resumes listening, `Drops` one that never will. Which taps are a `BargeIn`
      is for the call to say. */
  datatype Event =
    | Render
    | Fails(rec: nat)
    | Ends(rec: nat, turn: Turn)
    | Hush
    | Opens
    | Wakes(saw: bool)
    | Drops(saw: bool)
    | BargeIn

  const Mounted := Mic(false, false, {}, 0, multiset{})

  predicate Enabled(s: Mic, e: Event) {
    match e
    case Fails(rec) => rec in s.running
    case Ends(rec, _) => rec in s.running
    case Wakes(saw) => saw in s.resumes
    case Drops(saw) => saw in s.resumes
    case _ => true
  }

  /** `startListening` as made by a render in which `listening` was `saw`. */
  function StartListening(s: Mic, saw: bool): Mic {
    if saw then s else s.(listening := true, running := s.running + {s.made}, made := s.made + 1)
  }

  /** onend queues `setListening(false)`, then calls the handlers of the last render. */
  function EndTurn(s: Mic, rec: nat, turn: Turn): Mic {
    var ended := s.(running := s.running - {rec}, listening := false);
    match turn
    case ShortSilence => StartListening(ended, s.rendered)
    case Answered => ended.(resumes := s.resumes + multiset{s.rendered})
    case Dropped => ended
  }

  function Next(s: Mic, e: Event): Mic
    requires Enabled(s, e)
  {
    match e
    case Render => s.(rendered := s.listening)
    case Fails(_) => s.(listening := false)
    case Ends(rec, turn) => EndTurn(s, rec, turn)
    case Hush => s.(listening := false)
    case Opens => s.(resumes := s.resumes + multiset{s.rendered})
    case Wakes(saw) => StartListening(s.(resumes := s.resumes - multiset{saw}), saw)
    case Drops(saw) => s.(resumes := s.resumes - multiset{saw})
    case BargeIn => StartListening(s, s.rendered)
  }

  ghost predicate Runs(s: Mic, events: seq<Event>)
    decreases |events|
  {
    events == [] || (Enabled(s, events[0]) && Runs(Next(s, events[0]), events[1..]))
  }

  ghost function After(s: Mic, events: seq<Event>): Mic
    requires Runs(s, events)
    decreases |events|
  {
    if events == [] then s else After(Next(s, events[0]), events[1..])
  }

  // ----- What a turn's end finds rendered -----

  predicate Hushes(e: Event) { e.Fails? || e.Ends? || e.Hush? }

  /** Something has set `listening` to false, and a render has shown it. */
  ghost predicate HushShown(events: seq<Event>) {
    exists i, j :: 0 <= i < j < |events| && Hushes(events[i]) && events[j] == Render
  }

  lemma HushShownStep(events: seq<Event>)
    requires events != []
    ensures HushShown(events) <==> HushShown(events[1..]) || (Hushes(events[0]) && Render in events[1..])
  {
    var rest := events[1..];
    if i, j :| 0 <= i < j < |events| && Hushes(events[i]) && events[j] == Render {
      assert events[j] == rest[j - 1];
      assert i > 0 ==> events[i] == rest[i - 1];
    }
    if i, j :| 0 <= i < j < |rest| && Hushes(rest[i]) && rest[j] == Render {
      assert Hushes(events[i + 1]) && events[j + 1] == Render;
    }
    if j :| 0 <= j < |rest| && rest[j] == Render {
      assert events[j + 1] == Render;
    }
  }

  lemma {:induction false} MadeGrows(s: Mic, events: seq<Event>)
    requires Runs(s, events)
    ensures After(s, events).made >= s.made
    decreases |events|
  {
    if events != [] {
      MadeGrows(Next(s, events[0]), events[1..]);
    }
  }

  /** Until the next recogniser starts, the last render shows whether one has been hushed. */
  lemma {:induction false} WhatIsRendered(s: Mic, events: seq<Event>)
    requires Runs(s, events) && After(s, events).made == s.made
    ensures After(s, events).rendered <==>
            if Render in events then s.listening && !HushShown(events) else s.rendered
    decreases |events|
  {
    if events != [] {
      var next := Next(s, events[0]);
      MadeGrows(next, events[1..]);
      WhatIsRendered(next, events[1..]);
      HushShownStep(events);
    }
  }

  /** From the start of a recogniser, with a render since and no other start: a short silence
      leaves a new recogniser running exactly when an error, another turn's end or a stop came
      before some render. */
  lemma WhenAShortSilenceRearms(s: Mic, events: seq<Event>, rec: nat)
    requires s.listening && Runs(s, events) && After(s, events).made == s.made
    requires Render in events && rec in After(s, events).running
    ensures EndTurn(After(s, events), rec, ShortSilence).made > s.made <==> HushShown(events)
    ensures !HushShown(events) ==>
      EndTurn(After(s, events), rec, ShortSilence).running == After(s, events).running - {rec}
  {
    WhatIsRendered(s, events);
  }

  // ----- When the call is deaf -----

  /** Nothing that the person taps or types. */
  predicate HandsOff(events: seq<Event>) { Opens !in events && BargeIn !in events }

  ghost predicate StaysDeaf(s: Mic) {
    forall events | Runs(s, events) && HandsOff(events) :: After(s, events).running == {}
  }

  lemma {:induction false} DeafRun(s: Mic, events: seq<Event>)
    requires s.running == {} && false !in s.resumes && Runs(s, events) && HandsOff(events)
    ensures After(s, events).running == {}
    decreases |events|
  {
    if events != [] {
      assert events[0] in events;
      DeafRun(Next(s, events[0]), events[1..]);
    }
  }

  /** With nothing running, nothing will run until somebody taps or types, exactly when every
      callback outstanding was made by a render that was listening. */
  lemma WhenDeafIsFinal(s: Mic)
    requires s.running == {}
    ensures StaysDeaf(s) <==> false !in s.resumes
  {
    if false in s.resumes {
      var wakes := [Wakes(false)];
      assert wakes[1..] == [] && Runs(Next(s, wakes[0]), []);
      assert Runs(s, wakes) && HandsOff(wakes) && s.made in After(s, wakes).running;
    } else {
      forall events | Runs(s, events) && HandsOff(events) ensures After(s, events).running == {} {
        DeafRun(s, events);
      }
    }
  }

  /** A turn that only a render has come before ends the listening, whatever was said in it:
      its own callback is stale, so only one outstanding before can wake the microphone. */
  lemma WhenATurnEndsTheListening(s: Mic, events: seq<Event>, rec: nat, turn: Turn)
    requires s.listening && Runs(s, events) && After(s, events).made == s.made
    requires Render in events && !HushShown(events) && After(s, events).running == {rec}
    ensures var ended := EndTurn(After(s, events), rec, turn);
      && ended.running == {}
      && (StaysDeaf(ended) <==> false !in After(s, events).resumes)
  {
    WhatIsRendered(s, events);
    WhenDeafIsFinal(EndTurn(After(s, events), rec, turn));
  }

  lemma RunOne(s: Mic, e: Event, events: seq<Event>, end: Mic)
    requires Enabled(s, e) && Runs(Next(s, e), events) && After(Next(s, e), events) == end
    ensures Runs(s, [e] + events) && After(s, [e] + events) == end
  {
    assert ([e] + events)[1..] == events;
  }

  /** A call starts, its greeting is spoken, the person answers: the answer's own callback
      cannot listen again. */
  lemma OneAnswerThenDeaf()
    ensures var call := [Opens, Wakes(false), Render, Ends(0, Answered)];
      Runs(Mounted, call) && After(Mounted, call).running == {} && StaysDeaf(After(Mounted, call))
  {
    var call := [Opens, Wakes(false), Render, Ends(0, Answered)];
    var s1 := Mic(false, false, {}, 0, multiset{false});
    var s2 := Mic(false, true, {0}, 1, multiset{});
    var s3 := Mic(true, true, {0}, 1, multiset{});
    var s4 := Mic(true, false, {}, 1, multiset{true});
    assert Next(s1, Wakes(false)) == s2 && Next(s3, Ends(0, Answered)) == s4;
    RunOne(s3, Ends(0, Answered), [], s4);
    RunOne(s2, Render, [Ends(0, Answered)], s4);
    RunOne(s1, Wakes(false), [Render, Ends(0, Answered)], s4);
    RunOne(Mounted, Opens, [Wakes(false), Render, Ends(0, Answered)], s4);
    assert [Opens] + [Wakes(false), Render, Ends(0, Answered)] == call;
    WhenDeafIsFinal(s4);
  }
}
