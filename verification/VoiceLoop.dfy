/** The voice call with its microphone: every handler of the call together with the recognisers
    it starts and stops, in a browser with recognition. Each callback keeps the `listening` of
    the render that made it. */
module VoiceLoop {
  import opened Basics
  import C = VoiceCall
  import R = VoiceCallRuns
  import M = VoiceMic

  /** Beside the call and the microphone, for each callback outstanding the `listening` of its
      render: of sessions being created, of exchanges, of utterances that will resume. */
  datatype Loop = Loop(
    call: C.Call, mic: M.Mic,
    starts: multiset<bool>, exchanges: map<C.Exchange, bool>, utterances: multiset<bool>)

  /** `Silent` and `Heard` are the ends of a recogniser's turn, without text and with it. */
  datatype Event =
    | Render
    | Fails(rec: nat)
    | Silent(rec: nat, now: int)
    | Heard(rec: nat, now: int)
    | Typed(now: int)
    | StartCall(now: int)
    | Connected(saw: bool)
    | ConnectFailed(saw: bool)
    | Reply(from: C.Exchange, text: bool, now: int)
    | LastReply(from: C.Exchange, text: bool)
    | Spoken(saw: bool, now: int)
    | ClosingSpoken
    | EndCall(now: int)
    | Tap(now: int)

  function Mounted(now: int): Loop { Loop(C.Mounted(now), M.Mounted, multiset{}, map[], multiset{}) }

  function Hearing(tts: bool): C.Browser { C.Browser(true, tts) }

  /** A recogniser ends while it runs, a callback comes while it is outstanding. */
  predicate Due(s: Loop, e: Event) {
    match e
    case Fails(rec) => rec in s.mic.running
    case Silent(rec, _) => rec in s.mic.running
    case Heard(rec, _) => rec in s.mic.running
    case Connected(saw) => saw in s.starts
    case ConnectFailed(saw) => saw in s.starts
    case Reply(x, _, _) => x in s.exchanges
    case LastReply(x, _) => x in s.exchanges && x.Answer?
    case Spoken(saw, _) => saw in s.utterances
    case ClosingSpoken => s.call.finishes > 0
    case _ => true
  }

  // ----- A step, as the call, the microphone and the callbacks see it -----

  function CallEvents(e: Event): seq<C.Event> {
    match e
    case Render => [C.Render]
    case Fails(_) => []
    case Silent(_, now) => [C.Silence(now)]
    case Heard(_, now) => [C.Transcript(now)]
    case Typed(now) => [C.Transcript(now)]
    case StartCall(now) => [C.Event.StartCall(now)]
    case Connected(_) => [C.Connected]
    case ConnectFailed(_) => [C.ConnectFailed]
    case Reply(x, text, now) => [C.Event.Reply(x, text, now)]
    case LastReply(x, text) => [C.Event.LastReply(x, text)]
    case Spoken(_, now) => [C.Event.Spoken(now)]
    case ClosingSpoken => [C.ClosingSpoken]
    case EndCall(now) => [C.Event.EndCall(now)]
    case Tap(now) => [C.Event.Tap(now)]
  }

  /** What a silent turn comes to; without speech a check-in resumes listening at once. */
  function TurnOf(tts: bool, s: C.Call, now: int): M.Turn {
    if s.seen != C.Listening then M.Dropped
    else if !C.Speaks(s, now) then M.ShortSilence
    else if s.streak + 1 >= C.MAX_CHECK_INS then M.Dropped
    else if tts then M.Answered
    else M.ShortSilence
  }

  predicate Answers(s: C.Call) { s.session && s.seen != C.Thinking }

  function MicEvents(tts: bool, s: Loop, e: Event): seq<M.Event>
    requires Due(s, e)
  {
    match e
    case Render => [M.Render]
    case Fails(rec) => [M.Fails(rec)]
    case Silent(rec, now) => [M.Ends(rec, TurnOf(tts, s.call, now))]
    case Heard(rec, _) => [M.Ends(rec, if Answers(s.call) then M.Answered else M.Dropped)]
    case Typed(_) => if Answers(s.call) then [M.Opens] else []
    case StartCall(_) => [M.Opens]
    case ConnectFailed(saw) => [M.Drops(saw)]
    case Reply(x, text, _) => if tts && text then [] else [M.Wakes(s.exchanges[x])]
    case LastReply(x, _) => [M.Drops(s.exchanges[x]), M.Hush]
    case Spoken(saw, _) => [M.Wakes(saw)]
    case EndCall(_) => if Cuts(s) then [M.Drops(s.exchanges[s.call.abort.value]), M.Hush] else [M.Hush]
    case Tap(_) =>
      if s.call.seen == C.Idle then [M.Opens] else if s.call.seen == C.Speaking then [M.BargeIn] else []
    case _ => []
  }

  /** endCall silences the latest exchange, if it is still open. */
  predicate Cuts(s: Loop) { s.call.abort.Some? && s.call.abort.value in s.exchanges }

  function Callbacks(tts: bool, s: Loop, e: Event): Loop
    requires Due(s, e)
  {
    var saw := s.mic.rendered;
    match e
    case Silent(_, now) =>
      if TurnOf(tts, s.call, now) == M.Answered then s.(utterances := s.utterances + multiset{saw}) else s
    case Heard(_, _) => Asked(s, saw)
    case Typed(_) => Asked(s, saw)
    case StartCall(_) => s.(starts := s.starts + multiset{saw})
    case Connected(f) => s.(starts := s.starts - multiset{f}, exchanges := s.exchanges[C.Greeting(s.call.asked) := f])
    case ConnectFailed(f) => s.(starts := s.starts - multiset{f})
    case Reply(x, text, _) =>
      s.(exchanges := s.exchanges - {x},
         utterances := if tts && text then s.utterances + multiset{s.exchanges[x]} else s.utterances)
    case LastReply(x, _) => s.(exchanges := s.exchanges - {x})
    case Spoken(f, _) => s.(utterances := s.utterances - multiset{f})
    case EndCall(_) => if Cuts(s) then s.(exchanges := s.exchanges - {s.call.abort.value}) else s
    case Tap(_) => if s.call.seen == C.Idle then s.(starts := s.starts + multiset{saw}) else s
    case _ => s
  }

  function Asked(s: Loop, saw: bool): Loop {
    if Answers(s.call) then s.(exchanges := s.exchanges[C.Answer(s.call.asked) := saw]) else s
  }

  // ----- Steps and runs -----

  predicate MicCan(m: M.Mic, events: seq<M.Event>) {
    && (|events| >= 1 ==> M.Enabled(m, events[0]))
    && (|events| == 2 ==> M.Enabled(M.Next(m, events[0]), events[1]))
  }

  function MicAfter(m: M.Mic, events: seq<M.Event>): M.Mic
    requires |events| <= 2 && MicCan(m, events)
  {
    if events == [] then m
    else if |events| == 1 then M.Next(m, events[0])
    else M.Next(M.Next(m, events[0]), events[1])
  }

  /** The last two conjuncts exclude nothing: see `DueIsEnabled`. */
  predicate Enabled(tts: bool, s: Loop, e: Event) {
    && Due(s, e)
    && (CallEvents(e) != [] ==> C.Enabled(s.call, CallEvents(e)[0]))
    && MicCan(s.mic, MicEvents(tts, s, e))
  }

  function Next(tts: bool, s: Loop, e: Event): Loop
    requires Enabled(tts, s, e)
  {
    Callbacks(tts, s, e).(
      call := if CallEvents(e) == [] then s.call else C.Next(Hearing(tts), s.call, CallEvents(e)[0]),
      mic := MicAfter(s.mic, MicEvents(tts, s, e)))
  }

  ghost predicate Runs(tts: bool, s: Loop, events: seq<Event>)
    decreases |events|
  {
    events == [] || (Enabled(tts, s, events[0]) && Runs(tts, Next(tts, s, events[0]), events[1..]))
  }

  ghost function After(tts: bool, s: Loop, events: seq<Event>): Loop
    requires Runs(tts, s, events)
    decreases |events|
  {
    if events == [] then s else After(tts, Next(tts, s, events[0]), events[1..])
  }

  // ----- Both machines at once -----

  function With(m: map<C.Exchange, bool>, saw: bool): set<C.Exchange> { set x | x in m && m[x] == saw }

  /** Callbacks outstanding that were made by a render in which `listening` was `saw`. */
  function Waiting(s: Loop, saw: bool): nat { s.starts[saw] + |With(s.exchanges, saw)| + s.utterances[saw] }

  /** The call, the microphone and the callbacks count the same. */
  ghost predicate Matched(s: Loop) {
    && |s.starts| == s.call.starts && s.exchanges.Keys == s.call.exchanges && |s.utterances| == s.call.resumes
    && forall x | x in s.exchanges :: x.id < s.call.asked
  }

  ghost predicate Counted(s: Loop) {
    s.mic.resumes[false] == Waiting(s, false) && s.mic.resumes[true] == Waiting(s, true)
  }

  /** A listening microphone has a recogniser. */
  predicate Manned(m: M.Mic) {
    (forall rec | rec in m.running :: rec < m.made) && (m.listening ==> m.running != {})
  }

  ghost predicate Linked(s: Loop) { Matched(s) && Counted(s) && Manned(s.mic) }

  lemma WithOneMore(m: map<C.Exchange, bool>, x: C.Exchange, saw: bool, b: bool)
    requires x !in m
    ensures With(m[x := saw], b) == if b == saw then With(m, b) + {x} else With(m, b)
  {
  }

  lemma WithAdd(m: map<C.Exchange, bool>, x: C.Exchange, saw: bool)
    requires x !in m
    ensures forall b :: |With(m[x := saw], b)| == |With(m, b)| + if b == saw then 1 else 0
  {
    WithOneMore(m, x, saw, saw);
    WithOneMore(m, x, saw, !saw);
    assert x !in With(m, saw);
  }

  lemma WithRemove(m: map<C.Exchange, bool>, x: C.Exchange)
    requires x in m
    ensures forall b :: |With(m - {x}, b)| == |With(m, b)| - if b == m[x] then 1 else 0
  {
    WithAdd(m - {x}, x, m[x]);
    assert (m - {x})[x := m[x]] == m;
  }

  /** Whatever comes when it is due finds the call and the microphone ready for it. */
  lemma DueIsEnabled(tts: bool, s: Loop, e: Event)
    requires Linked(s)
    ensures Enabled(tts, s, e) <==> Due(s, e)
  {
    if Due(s, e) {
      if e.Reply? || e.LastReply? {
        WaitingExchange(s, e.from);
      } else if e.EndCall? {
        EndIsEnabled(tts, s, e);
      } else if e.Connected? || e.ConnectFailed? || e.Spoken? {
        assert Waiting(s, e.saw) > 0;
      }
    }
  }

  lemma EndIsEnabled(tts: bool, s: Loop, e: Event)
    requires Linked(s) && e.EndCall?
    ensures Enabled(tts, s, e)
  {
    if Cuts(s) {
      WaitingExchange(s, s.call.abort.value);
      DropAndHush(s.mic, s.exchanges[s.call.abort.value]);
    }
  }

  lemma WaitingExchange(s: Loop, x: C.Exchange)
    requires x in s.exchanges
    ensures Waiting(s, s.exchanges[x]) > 0
  {
    assert x in With(s.exchanges, s.exchanges[x]);
  }

  // What a step keeps: the counts of the call, of the callbacks, of the microphone.

  lemma MicKeepsManned(m: M.Mic, e: M.Event)
    requires Manned(m) && M.Enabled(m, e)
    ensures Manned(M.Next(m, e))
  {
  }

  lemma StepKeepsManned(m: M.Mic, events: seq<M.Event>)
    requires Manned(m) && |events| <= 2 && MicCan(m, events)
    ensures Manned(MicAfter(m, events))
  {
    if |events| >= 1 {
      MicKeepsManned(m, events[0]);
    }
    if |events| == 2 {
      MicKeepsManned(M.Next(m, events[0]), events[1]);
    }
  }

  lemma SilenceKeepsMatched(tts: bool, s: Loop, e: Event)
    requires Matched(s) && Enabled(tts, s, e) && e.Silent?
    ensures Matched(Next(tts, s, e))
  {
  }

  lemma AnswerKeepsMatched(tts: bool, s: Loop, e: Event)
    requires Matched(s) && Enabled(tts, s, e) && (e.Heard? || e.Typed?)
    ensures Matched(Next(tts, s, e))
  {
  }

  lemma ConnectKeepsMatched(tts: bool, s: Loop, e: Event)
    requires Matched(s) && Enabled(tts, s, e) && e.Connected?
    ensures Matched(Next(tts, s, e))
  {
  }

  lemma FailureKeepsMatched(tts: bool, s: Loop, e: Event)
    requires Matched(s) && Enabled(tts, s, e) && e.ConnectFailed?
    ensures Matched(Next(tts, s, e))
  {
  }

  lemma SpokenKeepsMatched(tts: bool, s: Loop, e: Event)
    requires Matched(s) && Enabled(tts, s, e) && e.Spoken?
    ensures Matched(Next(tts, s, e))
  {
  }

  lemma ReplyKeepsMatched(tts: bool, s: Loop, e: Event)
    requires Matched(s) && Enabled(tts, s, e) && (e.Reply? || e.LastReply?)
    ensures Matched(Next(tts, s, e))
  {
  }

  lemma StartKeepsMatched(tts: bool, s: Loop, e: Event)
    requires Matched(s) && Enabled(tts, s, e) && e.StartCall?
    ensures Matched(Next(tts, s, e))
  {
  }

  lemma TapKeepsMatched(tts: bool, s: Loop, e: Event)
    requires Matched(s) && Enabled(tts, s, e) && e.Tap?
    ensures Matched(Next(tts, s, e))
  {
  }

  lemma EndKeepsMatched(tts: bool, s: Loop, e: Event)
    requires Matched(s) && Enabled(tts, s, e) && e.EndCall?
    ensures Matched(Next(tts, s, e))
  {
  }

  lemma AnswerKeepsCounted(tts: bool, s: Loop, e: Event)
    requires Matched(s) && Counted(s) && Enabled(tts, s, e) && (e.Heard? || e.Typed?)
    ensures Counted(Next(tts, s, e))
  {
    var n, flag := Next(tts, s, e), multiset{s.mic.rendered};
    WithAdd(s.exchanges, C.Answer(s.call.asked), s.mic.rendered);
    assert n.mic.resumes == if Answers(s.call) then s.mic.resumes + flag else s.mic.resumes;
    assert n.starts == s.starts && n.utterances == s.utterances;
    assert n.exchanges ==
      if Answers(s.call) then s.exchanges[C.Answer(s.call.asked) := s.mic.rendered] else s.exchanges;
  }

  lemma ConnectKeepsCounted(tts: bool, s: Loop, e: Event)
    requires Matched(s) && Counted(s) && Enabled(tts, s, e) && e.Connected?
    ensures Counted(Next(tts, s, e))
  {
    WithAdd(s.exchanges, C.Greeting(s.call.asked), e.saw);
  }

  lemma ReplyKeepsCounted(tts: bool, s: Loop, e: Event)
    requires Counted(s) && Enabled(tts, s, e) && e.Reply?
    ensures Counted(Next(tts, s, e))
  {
    var n, saw := Next(tts, s, e), s.exchanges[e.from];
    WithRemove(s.exchanges, e.from);
    assert n.mic.resumes == if tts && e.text then s.mic.resumes else s.mic.resumes - multiset{saw};
    assert n.utterances == if tts && e.text then s.utterances + multiset{saw} else s.utterances;
    assert n.exchanges == s.exchanges - {e.from} && n.starts == s.starts;
  }

  lemma DropAndHush(m: M.Mic, saw: bool)
    requires saw in m.resumes
    ensures MicCan(m, [M.Drops(saw), M.Hush])
    ensures MicAfter(m, [M.Drops(saw), M.Hush]) == m.(resumes := m.resumes - multiset{saw}, listening := false)
  {
  }

  lemma LastReplyKeepsCounted(tts: bool, s: Loop, e: Event)
    requires Counted(s) && Enabled(tts, s, e) && e.LastReply?
    ensures Counted(Next(tts, s, e))
  {
    var n := Next(tts, s, e);
    WithRemove(s.exchanges, e.from);
    DropAndHush(s.mic, s.exchanges[e.from]);
    assert n.exchanges == s.exchanges - {e.from} && n.starts == s.starts && n.utterances == s.utterances;
  }

  lemma EndKeepsCounted(tts: bool, s: Loop, e: Event)
    requires Counted(s) && Enabled(tts, s, e) && e.EndCall?
    ensures Counted(Next(tts, s, e))
  {
    if Cuts(s) {
      WithRemove(s.exchanges, s.call.abort.value);
      DropAndHush(s.mic, s.exchanges[s.call.abort.value]);
    }
    var n := Next(tts, s, e);
    assert n.starts == s.starts && n.utterances == s.utterances;
    assert n.exchanges == if Cuts(s) then s.exchanges - {s.call.abort.value} else s.exchanges;
  }

  lemma PlainKeepsCounted(tts: bool, s: Loop, e: Event)
    requires Counted(s) && Enabled(tts, s, e) && (e.StartCall? || e.Tap?)
    ensures Counted(Next(tts, s, e))
  {
    var n, flag := Next(tts, s, e), multiset{s.mic.rendered};
    var opens := e.StartCall? || s.call.seen == C.Idle;
    assert n.mic.resumes == if opens then s.mic.resumes + flag else s.mic.resumes;
    assert n.starts == if opens then s.starts + flag else s.starts;
  }

  lemma FailureKeepsCounted(tts: bool, s: Loop, e: Event)
    requires Counted(s) && Enabled(tts, s, e) && e.ConnectFailed?
    ensures Counted(Next(tts, s, e))
  {
    var n := Next(tts, s, e);
    assert n.mic.resumes == s.mic.resumes - multiset{e.saw} && n.starts == s.starts - multiset{e.saw};
  }

  lemma SpokenKeepsCounted(tts: bool, s: Loop, e: Event)
    requires Counted(s) && Enabled(tts, s, e) && e.Spoken?
    ensures Counted(Next(tts, s, e))
  {
    var n := Next(tts, s, e);
    assert n.mic.resumes == s.mic.resumes - multiset{e.saw} && n.utterances == s.utterances - multiset{e.saw};
  }

  lemma SilenceKeepsCounted(tts: bool, s: Loop, e: Event)
    requires Counted(s) && Enabled(tts, s, e) && e.Silent?
    ensures Counted(Next(tts, s, e))
  {
    var n, flag := Next(tts, s, e), multiset{s.mic.rendered};
    var answered := TurnOf(tts, s.call, e.now) == M.Answered;
    assert n.mic.resumes == if answered then s.mic.resumes + flag else s.mic.resumes;
    assert n.utterances == if answered then s.utterances + flag else s.utterances;
  }

  lemma StepKeepsCounts(tts: bool, s: Loop, e: Event)
    requires Linked(s) && Enabled(tts, s, e)
    ensures Counted(Next(tts, s, e))
  {
    if e.Heard? || e.Typed? {
      AnswerKeepsCounted(tts, s, e);
    } else if e.Connected? {
      ConnectKeepsCounted(tts, s, e);
    } else if e.Reply? {
      ReplyKeepsCounted(tts, s, e);
    } else if e.LastReply? {
      LastReplyKeepsCounted(tts, s, e);
    } else if e.EndCall? {
      EndKeepsCounted(tts, s, e);
    } else if e.Silent? {
      SilenceKeepsCounted(tts, s, e);
    } else if e.StartCall? || e.Tap? {
      PlainKeepsCounted(tts, s, e);
    } else if e.ConnectFailed? {
      FailureKeepsCounted(tts, s, e);
    } else if e.Spoken? {
      SpokenKeepsCounted(tts, s, e);
    }
  }

  lemma StepKeepsMatched(tts: bool, s: Loop, e: Event)
    requires Matched(s) && Enabled(tts, s, e)
    ensures Matched(Next(tts, s, e))
  {
    if e.Silent? {
      SilenceKeepsMatched(tts, s, e);
    } else if e.Heard? || e.Typed? {
      AnswerKeepsMatched(tts, s, e);
    } else if e.Connected? {
      ConnectKeepsMatched(tts, s, e);
    } else if e.ConnectFailed? {
      FailureKeepsMatched(tts, s, e);
    } else if e.Spoken? {
      SpokenKeepsMatched(tts, s, e);
    } else if e.Reply? || e.LastReply? {
      ReplyKeepsMatched(tts, s, e);
    } else if e.EndCall? {
      EndKeepsMatched(tts, s, e);
    } else if e.StartCall? {
      StartKeepsMatched(tts, s, e);
    } else if e.Tap? {
      TapKeepsMatched(tts, s, e);
    }
  }

  lemma StepKeepsLinked(tts: bool, s: Loop, e: Event)
    requires Linked(s) && Enabled(tts, s, e)
    ensures Linked(Next(tts, s, e))
  {
    StepKeepsMatched(tts, s, e);
    StepKeepsCounts(tts, s, e);
    StepKeepsManned(s.mic, MicEvents(tts, s, e));
  }

  /** In every run, call, microphone and callbacks stay linked, so nothing that is due is ever
      refused. */
  lemma {:induction false} RunKeepsLinked(tts: bool, s: Loop, events: seq<Event>)
    requires Linked(s) && Runs(tts, s, events)
    ensures Linked(After(tts, s, events))
    decreases |events|
  {
    if events != [] {
      StepKeepsLinked(tts, s, events[0]);
      RunKeepsLinked(tts, Next(tts, s, events[0]), events[1..]);
    }
  }

  lemma MountedIsLinked(now: int)
    ensures Linked(Mounted(now))
  {
  }

  function AllCallEvents(events: seq<Event>): seq<C.Event> {
    if events == [] then [] else CallEvents(events[0]) + AllCallEvents(events[1..])
  }

  ghost function AllMicEvents(tts: bool, s: Loop, events: seq<Event>): seq<M.Event>
    requires Runs(tts, s, events)
    decreases |events|
  {
    if events == [] then []
    else MicEvents(tts, s, events[0]) + AllMicEvents(tts, Next(tts, s, events[0]), events[1..])
  }

  /** What the call does in a run is a run of VoiceCall, and what the microphone does one of
      VoiceMic, so what holds of those holds here. */
  lemma {:induction false} RunIsCallRun(tts: bool, s: Loop, events: seq<Event>)
    requires Runs(tts, s, events)
    ensures R.Runs(Hearing(tts), s.call, AllCallEvents(events))
    ensures R.After(Hearing(tts), s.call, AllCallEvents(events)) == After(tts, s, events).call
    decreases |events|
  {
    if events != [] {
      RunIsCallRun(tts, Next(tts, s, events[0]), events[1..]);
      var e, rest := CallEvents(events[0]), AllCallEvents(events[1..]);
      if e == [] {
        assert e + rest == rest;
      } else {
        assert (e + rest)[0] == e[0] && (e + rest)[1..] == rest;
      }
    }
  }

  lemma MicFirst(m: M.Mic, e: M.Event, rest: seq<M.Event>)
    requires M.Enabled(m, e) && M.Runs(M.Next(m, e), rest)
    ensures M.Runs(m, [e] + rest) && M.After(m, [e] + rest) == M.After(M.Next(m, e), rest)
  {
    assert ([e] + rest)[1..] == rest;
  }

  lemma MicPrefix(m: M.Mic, events: seq<M.Event>, rest: seq<M.Event>)
    requires |events| <= 2 && MicCan(m, events) && M.Runs(MicAfter(m, events), rest)
    ensures M.Runs(m, events + rest) && M.After(m, events + rest) == M.After(MicAfter(m, events), rest)
  {
    if events == [] {
      assert events + rest == rest;
    } else if |events| == 1 {
      MicFirst(m, events[0], rest);
      assert events + rest == [events[0]] + rest;
    } else {
      MicFirst(M.Next(m, events[0]), events[1], rest);
      MicFirst(m, events[0], [events[1]] + rest);
      assert events + rest == [events[0]] + ([events[1]] + rest);
    }
  }

  lemma {:induction false} RunIsMicRun(tts: bool, s: Loop, events: seq<Event>)
    requires Runs(tts, s, events)
    ensures M.Runs(s.mic, AllMicEvents(tts, s, events))
    ensures M.After(s.mic, AllMicEvents(tts, s, events)) == After(tts, s, events).mic
    decreases |events|
  {
    if events != [] {
      var next := Next(tts, s, events[0]);
      RunIsMicRun(tts, next, events[1..]);
      MicPrefix(s.mic, MicEvents(tts, s, events[0]), AllMicEvents(tts, next, events[1..]));
    }
  }

  // ----- What the end of a turn does -----

  /** A recogniser that fails hushes the microphone, and its turn still has to end. */
  lemma HowARecogniserFails(tts: bool, s: Loop, rec: nat)
    ensures Enabled(tts, s, Fails(rec)) <==> rec in s.mic.running
    ensures rec in s.mic.running ==> Next(tts, s, Fails(rec)) == s.(mic := s.mic.(listening := false))
  {
  }

  /** A silent turn: nothing to a call that does not show that it listens; a new recogniser, if the
      render did not show that the microphone listens, in the first 45 seconds; then a nudge. */
  lemma HowASilentTurnEnds(tts: bool, s: Loop, rec: nat, now: int)
    ensures Enabled(tts, s, Silent(rec, now)) <==> rec in s.mic.running
    ensures rec in s.mic.running ==>
      var n, left := Next(tts, s, Silent(rec, now)), s.mic.running - {rec};
      && (s.call.seen != C.Listening ==>
            n.call == s.call && n.mic.running == left && n.mic.made == s.mic.made && n.utterances == s.utterances)
      && (s.call.seen == C.Listening && now - s.call.since < 45000 ==>
            && n.call == s.call && n.utterances == s.utterances
            && n.mic.running == if s.mic.rendered then left else left + {s.mic.made})
      && (s.call.seen == C.Listening && now - s.call.since >= 45000 ==>
            && |n.call.log| > |s.call.log| && R.Nudge(n.call.log[|s.call.log|])
            && (tts ==> n.mic.running == left))
  {
  }

  // ----- Two recognisers, two nudges -----

  /** A nudge was the last thing to happen, the handlers still see a listening call, and a
      recogniser is left to end its turn. */
  ghost predicate CanRush(s: Loop) { R.Rushed(s.call) && s.mic.running != {} }

  /** Some silent turn, now or later, would come too soon after the last nudge. */
  ghost predicate SilenceMayRush(tts: bool, s: Loop)
    requires s.call.log != []
  {
    exists rec, now :: rec in s.mic.running && now >= R.Last(s.call.log).at &&
      !R.Spaced(C.HandleSilence(Hearing(tts), s.call, now).log)
  }

  lemma WhenSilenceMayRush(tts: bool, s: Loop)
    requires R.Regular(s.call)
    ensures SilenceMayRush(tts, s) <==> CanRush(s)
  {
    R.WhenSilenceIsSafe(Hearing(tts), s.call);
    if CanRush(s) {
      var rec :| rec in s.mic.running;
      R.SilenceSpaces(Hearing(tts), s.call, R.Last(s.call.log).at);
    }
  }

  /** At most one recogniser runs at any time. */
  ghost predicate OneAtATime(tts: bool, s: Loop, events: seq<Event>)
    requires Runs(tts, s, events)
    decreases |events|
  {
    |s.mic.running| <= 1 && (events == [] || OneAtATime(tts, Next(tts, s, events[0]), events[1..]))
  }

  lemma LoneTurnEnds(s: set<nat>, rec: nat)
    requires rec in s && |s| <= 1
    ensures s - {rec} == {}
  {
    assert |s - {rec}| == 0;
  }

  /** A nudge takes the only recogniser, and none starts before the clock does. */
  lemma SilenceCannotRush(tts: bool, s: Loop, e: Event)
    requires !CanRush(s) && |s.mic.running| <= 1 && Enabled(tts, s, e) && e.Silent?
    ensures !CanRush(Next(tts, s, e))
  {
    LoneTurnEnds(s.mic.running, e.rec);
    R.StepWrites(Hearing(tts), s.call, C.Silence(e.now));
  }

  /** A callback that resumes listening, or a tap that does. */
  predicate Resumes(tts: bool, s: Loop, e: Event) {
    e.Spoken? || (e.Reply? && !(tts && e.text)) || (e.Tap? && s.call.seen == C.Speaking)
  }

  lemma OthersStartNothing(tts: bool, s: Loop, e: Event)
    requires Due(s, e) && !e.Silent? && !Resumes(tts, s, e)
    ensures forall m | m in MicEvents(tts, s, e) :: !Starts(m)
  {
  }

  /** What starts a recogniser restarts the clock. */
  lemma StartsAreLogged(tts: bool, s: Loop, e: Event)
    requires Enabled(tts, s, e) && !e.Silent? && Next(tts, s, e).mic.running - s.mic.running != {}
    ensures Next(tts, s, e).call.log != [] && !R.Nudge(R.Last(Next(tts, s, e).call.log))
  {
    if Resumes(tts, s, e) {
      RestartIsLogged(tts, s, e);
    } else {
      OthersStartNothing(tts, s, e);
      NothingStarts(s.mic, MicEvents(tts, s, e));
    }
  }

  lemma RestartIsLogged(tts: bool, s: Loop, e: Event)
    requires Enabled(tts, s, e) && Resumes(tts, s, e)
    ensures Next(tts, s, e).call.log == s.call.log + [C.Restart(e.now)]
  {
    R.StepWrites(Hearing(tts), s.call, CallEvents(e)[0]);
  }

  predicate Starts(e: M.Event) { e.Wakes? || e.BargeIn? || (e.Ends? && e.turn == M.ShortSilence) }

  lemma DoesNotStart(m: M.Mic, e: M.Event)
    requires M.Enabled(m, e) && !Starts(e)
    ensures M.Next(m, e).running <= m.running
  {
  }

  lemma NothingStarts(m: M.Mic, events: seq<M.Event>)
    requires |events| <= 2 && MicCan(m, events) && forall e | e in events :: !Starts(e)
    ensures MicAfter(m, events).running - m.running == {}
  {
    if |events| >= 1 {
      DoesNotStart(m, events[0]);
    }
    if |events| == 2 {
      DoesNotStart(M.Next(m, events[0]), events[1]);
    }
  }

  lemma StepCannotRush(tts: bool, s: Loop, e: Event)
    requires !CanRush(s) && R.ListensAfresh(s.call) && |s.mic.running| <= 1 && Enabled(tts, s, e)
    ensures !CanRush(Next(tts, s, e))
  {
    var n := Next(tts, s, e);
    if e.Silent? {
      SilenceCannotRush(tts, s, e);
    } else if n.mic.running - s.mic.running != {} {
      StartsAreLogged(tts, s, e);
    } else if R.Rushed(n.call) {
      QuietStepKeepsRushed(tts, s, e);
      assert s.mic.running == {};
    }
  }

  lemma QuietStepKeepsRushed(tts: bool, s: Loop, e: Event)
    requires R.ListensAfresh(s.call) && Enabled(tts, s, e) && !e.Silent? && R.Rushed(Next(tts, s, e).call)
    ensures R.Rushed(s.call)
  {
    if CallEvents(e) != [] {
      R.StepWrites(Hearing(tts), s.call, CallEvents(e)[0]);
    }
  }

  ghost predicate RisingRun(tts: bool, s: Loop, events: seq<Event>)
    requires Runs(tts, s, events)
    decreases |events|
  {
    events == [] ||
    (&& (CallEvents(events[0]) != [] ==> R.Rising(s.call, CallEvents(events[0])[0]))
     && RisingRun(tts, Next(tts, s, events[0]), events[1..]))
  }

  lemma {:induction false} RunCannotRush(tts: bool, s: Loop, events: seq<Event>)
    requires R.Regular(s.call) && R.ListensAfresh(s.call) && !CanRush(s)
    requires Runs(tts, s, events) && RisingRun(tts, s, events) && OneAtATime(tts, s, events)
    ensures R.Spaced(After(tts, s, events).call.log)
    decreases |events|
  {
    if events != [] {
      var e := events[0];
      if CallEvents(e) != [] {
        R.StepSpaces(Hearing(tts), s.call, CallEvents(e)[0]);
        R.StepListensAfresh(Hearing(tts), s.call, CallEvents(e)[0]);
      }
      StepCannotRush(tts, s, e);
      RunCannotRush(tts, Next(tts, s, e), events[1..]);
    }
  }

  /** Whenever renders come: as long as no two recognisers run at once, nudges are 45 seconds
      apart. */
  lemma OneRecogniserSpaces(tts: bool, mounted: int, events: seq<Event>)
    requires Runs(tts, Mounted(mounted), events)
    requires RisingRun(tts, Mounted(mounted), events) && OneAtATime(tts, Mounted(mounted), events)
    ensures R.Spaced(After(tts, Mounted(mounted), events).call.log)
  {
    R.MountedIsRegular(mounted);
    RunCannotRush(tts, Mounted(mounted), events);
  }

  /** Events with the states they go through, one step after the other. */
  ghost predicate PathBy<S, E>(step: (S, E, S) -> bool, states: seq<S>, events: seq<E>) {
    |states| == |events| + 1 && forall i | 0 <= i < |events| :: step(states[i], events[i], states[i + 1])
  }

  lemma PathConcat<S, E>(step: (S, E, S) -> bool, a: seq<S>, first: seq<E>, b: seq<S>, second: seq<E>)
    returns (states: seq<S>)
    requires PathBy(step, a, first) && PathBy(step, b, second) && a[|first|] == b[0]
    ensures PathBy(step, states, first + second) && states[0] == a[0] && states[|first + second|] == b[|second|]
  {
    states := a + b[1..];
    forall i | 0 <= i < |first + second| ensures step(states[i], (first + second)[i], states[i + 1]) {
      if i < |first| {
        assert step(a[i], first[i], a[i + 1]);
      } else {
        assert step(b[i - |first|], second[i - |first|], b[i - |first| + 1]);
      }
    }
  }

  predicate Steps(tts: bool, s: Loop, e: Event, n: Loop) { Enabled(tts, s, e) && n == Next(tts, s, e) }

  function StepBy(tts: bool): (Loop, Event, Loop) -> bool { (s, e, n) => Steps(tts, s, e, n) }

  ghost predicate Path(tts: bool, states: seq<Loop>, events: seq<Event>) { PathBy(StepBy(tts), states, events) }

  lemma ThreeSteps<S, E>(step: (S, E, S) -> bool, s: S, e: E, s1: S, e1: E, s2: S, e2: E, s3: S)
    requires step(s, e, s1) && step(s1, e1, s2) && step(s2, e2, s3)
    ensures PathBy(step, [s, s1, s2, s3], [e, e1, e2])
  {
  }

  lemma FourSteps<S, E>(step: (S, E, S) -> bool, s: S, e: E, s1: S, e1: E, s2: S, e2: E, s3: S, e3: E, s4: S)
    requires step(s, e, s1) && step(s1, e1, s2) && step(s2, e2, s3) && step(s3, e3, s4)
    ensures PathBy(step, [s, s1, s2, s3, s4], [e, e1, e2, e3])
  {
  }

  lemma PathOfThree(tts: bool, s: Loop, e: Event, s1: Loop, e1: Event, s2: Loop, e2: Event, s3: Loop)
    requires Steps(tts, s, e, s1) && Steps(tts, s1, e1, s2) && Steps(tts, s2, e2, s3)
    ensures Path(tts, [s, s1, s2, s3], [e, e1, e2])
  {
    ThreeSteps(StepBy(tts), s, e, s1, e1, s2, e2, s3);
  }

  lemma PathOfFour(tts: bool, s: Loop, e: Event, s1: Loop, e1: Event, s2: Loop, e2: Event, s3: Loop, e3: Event,
      s4: Loop)
    requires Steps(tts, s, e, s1) && Steps(tts, s1, e1, s2) && Steps(tts, s2, e2, s3) && Steps(tts, s3, e3, s4)
    ensures Path(tts, [s, s1, s2, s3, s4], [e, e1, e2, e3])
  {
    FourSteps(StepBy(tts), s, e, s1, e1, s2, e2, s3, e3, s4);
  }

  lemma StepThenRun(tts: bool, s: Loop, e: Event, n: Loop, rest: seq<Event>)
    requires Steps(tts, s, e, n) && Runs(tts, n, rest)
    ensures Runs(tts, s, [e] + rest) && After(tts, s, [e] + rest) == After(tts, n, rest)
  {
    assert ([e] + rest)[1..] == rest;
  }

  lemma {:induction false} PathIsRun(tts: bool, states: seq<Loop>, events: seq<Event>)
    requires Path(tts, states, events)
    ensures Runs(tts, states[0], events) && After(tts, states[0], events) == states[|events|]
    decreases |events|
  {
    if events != [] {
      var rest := events[1..];
      assert StepBy(tts)(states[0], events[0], states[1]) && Path(tts, states[1..], rest);
      PathIsRun(tts, states[1..], rest);
      StepThenRun(tts, states[0], events[0], states[1], rest);
      assert events == [events[0]] + rest;
    }
  }

  /** Two recognisers whose turns end before the next render check in and close in one breath. */
  lemma TwoRecognisersRush(s: Loop, rec: nat, other: nat, now: int) returns (path: seq<Loop>)
    requires s.call.seen == C.Listening && s.call.streak == 0 && now - s.call.since >= C.SILENCE_BEFORE_CHECK_IN_MS
    requires rec in s.mic.running && other in s.mic.running && rec != other
    ensures Path(true, path, [Silent(rec, now), Silent(other, now)]) && path[0] == s
    ensures path[2].call.log == s.call.log + [C.CheckIn(now), C.Closing(now)]
    ensures !R.Spaced(path[2].call.log)
  {
    var once := Next(true, s, Silent(rec, now));
    assert once.call.seen == C.Listening && once.call.streak == 1 && once.call.since == s.call.since;
    assert once.mic.running == s.mic.running - {rec};
    path := [s, once, Next(true, once, Silent(other, now))];
    var log, n := path[2].call.log, |s.call.log|;
    assert log == s.call.log + [C.CheckIn(now)] + [C.Closing(now)];
    assert R.Nudge(log[n]) && R.Nudge(log[n + 1]);
  }

  /** The call is up and its greeting is being spoken. */
  function Greeting(t: int): seq<Event> { [StartCall(t), Connected(false), Reply(C.Greeting(0), true, t)] }

  /** What holds from the greeting's first word on, until it has been spoken or cut off. */
  ghost predicate Greets(s: Loop, t: int) {
    && s.call.state == C.Speaking && s.call.session && s.call.streak == 0 && s.call.asked == 1
    && s.call.starts == 0 && s.call.finishes == 0 && s.call.resumes == 1 && s.call.log == [C.Reset(t), C.Reset(t)]
    && s.mic == M.Mic(false, false, {}, 0, multiset{false})
    && s.starts == multiset{} && s.exchanges == map[] && s.call.exchanges == {} && s.utterances == multiset{false}
  }

  lemma GreetingIsSpoken(t: int) returns (path: seq<Loop>)
    ensures Path(true, path, Greeting(t)) && path[0] == Mounted(t) && Greets(path[3], t)
  {
    var s0 := Mounted(t);
    var s1 := Next(true, s0, StartCall(t));
    assert s1.mic == M.Mic(false, false, {}, 0, multiset{false}) && s1.starts == multiset{false};
    var s2 := Next(true, s1, Connected(false));
    assert s2.mic == s1.mic && s2.starts == multiset{} && s2.exchanges == map[C.Greeting(0) := false];
    var s3 := Next(true, s2, Reply(C.Greeting(0), true, t));
    assert s3.mic == s1.mic && s3.exchanges == map[] && s3.utterances == multiset{false};
    path := [s0, s1, s2, s3];
    PathOfThree(true, s0, StartCall(t), s1, Connected(false), s2, Reply(C.Greeting(0), true, t), s3);
  }

  /** A tap cuts the greeting off and listens; so does the callback of the utterance cut off,
      whose render was not listening either. */
  function CutOff(t: int): seq<Event> { [Render, Tap(t), Spoken(false, t), Render] }

  lemma CutOffStartsTwo(s: Loop, t: int) returns (path: seq<Loop>)
    requires Greets(s, t)
    ensures Path(true, path, CutOff(t)) && path[0] == s
    ensures path[4].call.seen == C.Listening && path[4].call.streak == 0 && path[4].call.since == t
    ensures path[4].mic.running == {0, 1}
  {
    var s1 := Next(true, s, Render);
    assert s1.call == s.call.(seen := C.Speaking) && s1.mic == s.mic && s1.utterances == s.utterances;
    var s2 := Next(true, s1, Tap(t));
    assert s2.mic == M.Mic(false, true, {0}, 1, multiset{false}) && s2.utterances == s.utterances;
    var s3 := Next(true, s2, Spoken(false, t));
    assert s3.mic == M.Mic(false, true, {0, 1}, 2, multiset{});
    var s4 := Next(true, s3, Render);
    path := [s, s1, s2, s3, s4];
    PathOfFour(true, s, Render, s1, Tap(t), s2, Spoken(false, t), s3, Render, s4);
  }

  function BothDropped(t: int): seq<Event> {
    [Silent(0, t + C.SILENCE_BEFORE_CHECK_IN_MS), Silent(1, t + C.SILENCE_BEFORE_CHECK_IN_MS)]
  }

  /** A call can get there: the greeting cut off, 45 seconds of silence, and both recognisers
      dropped before the next render. */
  lemma CutOffCallCloses(t: int)
    ensures var events := Greeting(t) + CutOff(t) + BothDropped(t);
      Runs(true, Mounted(t), events) && !R.Spaced(After(true, Mounted(t), events).call.log)
  {
    var greeting := GreetingIsSpoken(t);
    var cutOff := CutOffStartsTwo(greeting[3], t);
    var dropped := TwoRecognisersRush(cutOff[4], 0, 1, t + C.SILENCE_BEFORE_CHECK_IN_MS);
    var path := PathConcat(StepBy(true), greeting, Greeting(t), cutOff, CutOff(t));
    path := PathConcat(StepBy(true), path, Greeting(t) + CutOff(t), dropped, BothDropped(t));
    PathIsRun(true, path, Greeting(t) + CutOff(t) + BothDropped(t));
  }

  // ----- When only typing helps -----

  /** Nothing by hand but taps on the orb. */
  predicate OnlyTaps(events: seq<Event>) {
    forall e | e in events :: !e.Typed? && !e.StartCall? && !e.EndCall?
  }

  ghost predicate StaysDeaf(tts: bool, s: Loop) {
    forall events | Runs(tts, s, events) && OnlyTaps(events) :: After(tts, s, events).mic.running == {}
  }

  /** The call shows that it listens, and no recogniser runs. */
  ghost predicate Waits(s: Loop) {
    s.call.state == C.Listening && s.call.seen == C.Listening && s.mic.running == {}
  }

  /** No session is being created, no closing spoken, and every callback outstanding listens
      again from a render that was listening, and does nothing else first. */
  predicate Stuck(tts: bool, s: Loop) {
    && s.starts == multiset{} && s.call.finishes == 0 && false !in s.utterances
    && forall x | x in s.exchanges :: s.exchanges[x] && !tts && x.Greeting?
  }

  lemma StuckStep(tts: bool, s: Loop, e: Event)
    requires Waits(s) && Stuck(tts, s) && Enabled(tts, s, e) && OnlyTaps([e])
    ensures Waits(Next(tts, s, e)) && Stuck(tts, Next(tts, s, e))
  {
    assert e in [e];
    if e.Reply? || e.Spoken? {
      StuckCallback(tts, s, e);
    } else {
      assert Due(s, e);
    }
  }

  lemma StuckCallback(tts: bool, s: Loop, e: Event)
    requires Waits(s) && Stuck(tts, s) && Enabled(tts, s, e) && (e.Reply? || e.Spoken?)
    ensures Waits(Next(tts, s, e)) && Stuck(tts, Next(tts, s, e))
  {
    var n := Next(tts, s, e);
    assert n.mic == s.mic.(resumes := s.mic.resumes - multiset{true});
    if e.Reply? {
      assert !tts && n.call == C.Next(Hearing(tts), s.call, C.Event.Reply(e.from, e.text, e.now));
      assert n.exchanges == s.exchanges - {e.from} && n.utterances == s.utterances;
    } else {
      assert n.call == C.Next(Hearing(tts), s.call, C.Event.Spoken(e.now)) && n.exchanges == s.exchanges;
    }
  }

  lemma {:induction false} StuckRun(tts: bool, s: Loop, events: seq<Event>)
    requires Waits(s) && Stuck(tts, s) && Runs(tts, s, events) && OnlyTaps(events)
    ensures After(tts, s, events).mic.running == {}
    decreases |events|
  {
    if events != [] {
      assert events[0] in events;
      StuckStep(tts, s, events[0]);
      StuckRun(tts, Next(tts, s, events[0]), events[1..]);
    }
  }

  /** A recogniser runs, now or in what may follow. */
  lemma WakesNow(tts: bool, s: Loop)
    requires s.mic.running != {}
    ensures !StaysDeaf(tts, s)
  {
    assert Runs(tts, s, []) && OnlyTaps([]) && After(tts, s, []) == s;
  }

  lemma WakesLater(tts: bool, s: Loop, e: Event)
    requires Enabled(tts, s, e) && OnlyTaps([e]) && !StaysDeaf(tts, Next(tts, s, e))
    ensures !StaysDeaf(tts, s)
  {
    var events :| Runs(tts, Next(tts, s, e), events) && OnlyTaps(events) &&
      After(tts, Next(tts, s, e), events).mic.running != {};
    StepThenRun(tts, s, e, Next(tts, s, e), events);
    assert e in [e] && OnlyTaps([e] + events);
  }

  /** Once what is spoken is rendered, a tap listens. */
  lemma SpeakingWakes(tts: bool, s: Loop)
    requires Linked(s) && s.call.state == C.Speaking
    ensures !StaysDeaf(tts, s)
  {
    if s.mic.running != {} {
      WakesNow(tts, s);
    } else {
      var n := Next(tts, s, Render);
      assert n.mic == s.mic.(rendered := false) && n.call.seen == C.Speaking;
      BargeInWakes(tts, n);
      WakesLater(tts, s, Render);
    }
  }

  lemma BargeInWakes(tts: bool, s: Loop)
    requires s.call.seen == C.Speaking && !s.mic.rendered
    ensures !StaysDeaf(tts, s)
  {
    var n := Next(tts, s, Tap(0));
    assert s.mic.made in n.mic.running;
    WakesNow(tts, n);
    WakesLater(tts, s, Tap(0));
  }

  /** A session made for a render that was not listening greets, and listens afterwards. */
  lemma ConnectingWakes(tts: bool, s: Loop)
    requires Linked(s) && false in s.starts
    ensures !StaysDeaf(tts, s)
  {
    DueIsEnabled(tts, s, Connected(false));
    StepKeepsLinked(tts, s, Connected(false));
    var n, x := Next(tts, s, Connected(false)), C.Greeting(s.call.asked);
    assert n.exchanges[x] == false;
    DueIsEnabled(tts, n, Reply(x, false, 0));
    WakesNow(tts, Next(tts, n, Reply(x, false, 0)));
    WakesLater(tts, n, Reply(x, false, 0));
    WakesLater(tts, s, Connected(false));
  }

  /** And a tap on an idle call starts it. */
  lemma IdleWakes(tts: bool, s: Loop)
    requires Linked(s) && s.call.state == C.Idle && s.mic.running == {}
    ensures !StaysDeaf(tts, s)
  {
    var n := Next(tts, s, Render);
    StepKeepsLinked(tts, s, Render);
    StepKeepsLinked(tts, n, Tap(0));
    ConnectingWakes(tts, Next(tts, n, Tap(0)));
    WakesLater(tts, n, Tap(0));
    WakesLater(tts, s, Render);
  }

  lemma FreshExchangeWakes(tts: bool, s: Loop, x: C.Exchange)
    requires Linked(s) && x in s.exchanges && !s.exchanges[x]
    ensures !StaysDeaf(tts, s)
  {
    DueIsEnabled(tts, s, Reply(x, false, 0));
    WakesNow(tts, Next(tts, s, Reply(x, false, 0)));
    WakesLater(tts, s, Reply(x, false, 0));
  }

  lemma SpokenReplyWakes(s: Loop, x: C.Exchange)
    requires Linked(s) && x in s.exchanges
    ensures !StaysDeaf(true, s)
  {
    DueIsEnabled(true, s, Reply(x, true, 0));
    StepKeepsLinked(true, s, Reply(x, true, 0));
    SpeakingWakes(true, Next(true, s, Reply(x, true, 0)));
    WakesLater(true, s, Reply(x, true, 0));
  }

  lemma SpokenWakes(tts: bool, s: Loop)
    requires Linked(s) && false in s.utterances
    ensures !StaysDeaf(tts, s)
  {
    DueIsEnabled(tts, s, Spoken(false, 0));
    WakesNow(tts, Next(tts, s, Spoken(false, 0)));
    WakesLater(tts, s, Spoken(false, 0));
  }

  lemma EndingWakes(tts: bool, s: Loop, e: Event)
    requires Linked(s) && s.mic.running == {} && Due(s, e)
    requires e.ConnectFailed? || e.ClosingSpoken? || (e.LastReply? && !e.text)
    ensures !StaysDeaf(tts, s)
  {
    DueIsEnabled(tts, s, e);
    StepKeepsLinked(tts, s, e);
    EndingIsIdle(tts, s, e);
    IdleWakes(tts, Next(tts, s, e));
    WakesLater(tts, s, e);
  }

  lemma EndingIsIdle(tts: bool, s: Loop, e: Event)
    requires Enabled(tts, s, e) && (e.ConnectFailed? || e.ClosingSpoken? || (e.LastReply? && !e.text))
    ensures Next(tts, s, e).call.state == C.Idle && Next(tts, s, e).mic.running == s.mic.running
  {
    var n := Next(tts, s, e);
    if e.ConnectFailed? {
      assert n.mic == M.Next(s.mic, M.Drops(e.saw)) && n.call == C.Next(Hearing(tts), s.call, C.ConnectFailed);
    } else if e.ClosingSpoken? {
      assert n.mic == s.mic && n.call == C.Next(Hearing(tts), s.call, C.ClosingSpoken);
    } else {
      DropAndHush(s.mic, s.exchanges[e.from]);
      assert n.call == C.Next(Hearing(tts), s.call, C.Event.LastReply(e.from, false));
    }
  }

  lemma SomeMember(s: multiset<bool>)
    ensures s == multiset{} || false in s || true in s
  {
    if false !in s && true !in s {
      forall saw ensures s[saw] == 0 {
        assert saw == false || saw == true;
      }
    }
  }

  /** A call that shows that it listens, and does not, stays so through any taps, exactly when
      it is stuck: then only typing, hanging up or starting again helps. */
  lemma WhenOnlyTypingHelps(tts: bool, s: Loop)
    requires Linked(s) && Waits(s)
    ensures StaysDeaf(tts, s) <==> Stuck(tts, s)
  {
    if Stuck(tts, s) {
      forall events | Runs(tts, s, events) && OnlyTaps(events) ensures After(tts, s, events).mic.running == {} {
        StuckRun(tts, s, events);
      }
    } else if x :| x in s.exchanges && !(s.exchanges[x] && !tts && x.Greeting?) {
      if !s.exchanges[x] {
        FreshExchangeWakes(tts, s, x);
      } else if tts {
        SpokenReplyWakes(s, x);
      } else {
        EndingWakes(tts, s, LastReply(x, false));
      }
    } else if false in s.utterances {
      SpokenWakes(tts, s);
    } else if s.call.finishes > 0 {
      EndingWakes(tts, s, ClosingSpoken);
    } else {
      SomeMember(s.starts);
      var saw :| saw in s.starts;
      EndingWakes(tts, s, ConnectFailed(saw));
    }
  }

  /** The greeting spoken, one answer heard. */
  function Answered(t: int): seq<Event> { [Spoken(false, t), Render, Heard(0, t)] }

  /** Its reply spoken. */
  function Replied(t: int): seq<Event> { [Render, Reply(C.Answer(1), true, t), Spoken(true, t), Render] }

  ghost predicate Thinks(s: Loop) {
    && s.call.session && s.call.starts == 0 && s.call.finishes == 0 && s.call.resumes == 0
    && s.mic == M.Mic(true, false, {}, 1, multiset{true}) && s.starts == multiset{} && s.utterances == multiset{}
    && s.exchanges == map[C.Answer(1) := true] && s.call.exchanges == {C.Answer(1)}
  }

  lemma AnswerIsHeard(s: Loop, t: int) returns (path: seq<Loop>)
    requires Greets(s, t)
    ensures Path(true, path, Answered(t)) && path[0] == s && Thinks(path[3])
  {
    var s1 := Next(true, s, Spoken(false, t));
    assert s1.mic == M.Mic(false, true, {0}, 1, multiset{}) && s1.utterances == multiset{} && s1.call.resumes == 0;
    var s2 := Next(true, s1, Render);
    assert s2.mic == M.Mic(true, true, {0}, 1, multiset{}) && Answers(s2.call);
    var s3 := Next(true, s2, Heard(0, t));
    assert s3.mic == M.Mic(true, false, {}, 1, multiset{true});
    path := [s, s1, s2, s3];
    PathOfThree(true, s, Spoken(false, t), s1, Render, s2, Heard(0, t), s3);
  }

  lemma ReplyIsSpoken(s: Loop, t: int) returns (path: seq<Loop>)
    requires Thinks(s)
    ensures Path(true, path, Replied(t)) && path[0] == s && Waits(path[4]) && Stuck(true, path[4])
  {
    var s1 := Next(true, s, Render);
    var s2 := Next(true, s1, Reply(C.Answer(1), true, t));
    assert s2.exchanges == map[] && s2.utterances == multiset{true} && s2.mic.resumes == multiset{true};
    var s3 := Next(true, s2, Spoken(true, t));
    assert s3.mic == M.Mic(false, false, {}, 1, multiset{}) && s3.utterances == multiset{};
    assert s3.call.state == C.Listening;
    var s4 := Next(true, s3, Render);
    path := [s, s1, s2, s3, s4];
    PathOfFour(true, s, Render, s1, Reply(C.Answer(1), true, t), s2, Spoken(true, t), s3, Render, s4);
  }

  /** So after one spoken answer and its spoken reply, the call hears nothing more until
      somebody types, hangs up or starts again, whatever is tapped. */
  lemma OneAnswerThenOnlyTyping(t: int)
    ensures var events := Greeting(t) + Answered(t) + Replied(t);
      Runs(true, Mounted(t), events) && Waits(After(true, Mounted(t), events)) &&
      StaysDeaf(true, After(true, Mounted(t), events))
  {
    var events := Greeting(t) + Answered(t) + Replied(t);
    var greeting := GreetingIsSpoken(t);
    var answered := AnswerIsHeard(greeting[3], t);
    var replied := ReplyIsSpoken(answered[3], t);
    var path := PathConcat(StepBy(true), greeting, Greeting(t), answered, Answered(t));
    path := PathConcat(StepBy(true), path, Greeting(t) + Answered(t), replied, Replied(t));
    PathIsRun(true, path, events);
    MountedIsLinked(t);
    RunKeepsLinked(true, Mounted(t), events);
    WhenOnlyTypingHelps(true, replied[4]);
  }
}
