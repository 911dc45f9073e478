/** What every run of the voice call keeps: the silence ladder, its spacing, and when ending
    a call is final. */
module VoiceCallRuns {
  import opened Basics
  import opened VoiceCall

  ghost predicate Runs(b: Browser, s: Call, events: seq<Event>)
    decreases |events|
  {
    events == [] || (Enabled(s, events[0]) && Runs(b, Next(b, s, events[0]), events[1..]))
  }

  ghost function After(b: Browser, s: Call, events: seq<Event>): Call
    requires Runs(b, s, events)
    decreases |events|
  {
    if events == [] then s else After(b, Next(b, s, events[0]), events[1..])
  }

  // ----- The ladder -----

  predicate Nudge(e: Entry) { e.CheckIn? || e.Closing? }

  /** When the silence clock was last restarted. */
  function LastRestart(log: seq<Entry>): int {
    if log == [] then 0
    else if Nudge(log[|log| - 1]) then LastRestart(log[..|log| - 1])
    else log[|log| - 1].at
  }

  /** Check-ins since the last reset. */
  function CheckIns(log: seq<Entry>): nat {
    if log == [] || log[|log| - 1].Reset? then 0
    else CheckIns(log[..|log| - 1]) + if log[|log| - 1].CheckIn? then 1 else 0
  }

  /** Check-ins and closings since the last reset. */
  function Nudges(log: seq<Entry>): nat {
    if log == [] || log[|log| - 1].Reset? then 0
    else Nudges(log[..|log| - 1]) + if Nudge(log[|log| - 1]) then 1 else 0
  }

  /** A nudge waits out a whole silence, counted from the last restart of the clock; it is a
      check-in until the ladder is climbed, and a closing from then on. */
  predicate Due(log: seq<Entry>, e: Entry) {
    Nudge(e) ==>
      && e.at - LastRestart(log) >= SILENCE_BEFORE_CHECK_IN_MS
      && (e.CheckIn? <==> CheckIns(log) < MAX_CHECK_INS - 1)
  }

  predicate Ladder(log: seq<Entry>) {
    forall k | 0 <= k < |log| :: Due(log[..k], log[k])
  }

  /** The counter and the clock are what the log makes them. */
  ghost predicate Counted(log: seq<Entry>, since: int, streak: nat) {
    && log != []
    && Ladder(log)
    && since == LastRestart(log)
    && streak == Nudges(log)
    && CheckIns(log) == Min(streak, MAX_CHECK_INS - 1)
  }

  /** And exchanges are numbered below the next one. */
  ghost predicate Inv(s: Call) {
    Counted(s.log, s.since, s.streak) && forall x | x in s.exchanges :: x.id < s.asked
  }

  lemma LadderGrows(log: seq<Entry>, e: Entry)
    requires Ladder(log) && Due(log, e)
    ensures Ladder(log + [e])
  {
    var more := log + [e];
    assert more[..|log|] == log;
    forall k | 0 <= k < |more| ensures Due(more[..k], more[k]) {
      if k < |log| {
        assert more[..k] == log[..k];
      }
    }
  }

  lemma Climb(log: seq<Entry>, since: int, streak: nat, e: Entry)
    requires Counted(log, since, streak)
    requires Nudge(e) ==> e.at - since >= SILENCE_BEFORE_CHECK_IN_MS && (e.CheckIn? <==> streak + 1 < MAX_CHECK_INS)
    ensures Counted(log + [e], if Nudge(e) then since else e.at,
                    if e.Reset? then 0 else if Nudge(e) then streak + 1 else streak)
  {
    LadderGrows(log, e);
    assert (log + [e])[..|log|] == log;
  }

  lemma EntryCounts(log: seq<Entry>, e: Entry)
    requires !Nudge(e)
    ensures LastRestart(log + [e]) == e.at
    ensures CheckIns(log + [e]) == if e.Reset? then 0 else CheckIns(log)
    ensures Nudges(log + [e]) == if e.Reset? then 0 else Nudges(log)
  {
    assert (log + [e])[..|log|] == log;
  }

  /** What a step writes: at most a nudge and, where speech is missing, the restart after it. */
  function Written(b: Browser, s: Call, e: Event): seq<Entry>
    requires Enabled(s, e)
  {
    match e
    case Silence(now) =>
      if !Speaks(s, now) then []
      else if s.streak + 1 >= MAX_CHECK_INS then [Closing(now)]
      else if b.tts then [CheckIn(now)]
      else [CheckIn(now), Restart(now)]
    case Transcript(now) => if !s.session || s.seen == Thinking then [] else [Reset(now)]
    case StartCall(now) => [Reset(now)]
    case Reply(_, text, now) => if b.tts && text then [] else [Restart(now)]
    case Spoken(now) => [Restart(now)]
    case EndCall(now) => [Reset(now)]
    case Tap(now) => if s.seen == Idle then [Reset(now)] else if s.seen == Speaking then [Restart(now)] else []
    case _ => []
  }

  lemma StepWrites(b: Browser, s: Call, e: Event)
    requires Enabled(s, e)
    ensures Next(b, s, e).log == s.log + Written(b, s, e)
  {
    if e.Silence? && !b.tts {
      assert s.log + [CheckIn(e.now)] + [Restart(e.now)] == s.log + [CheckIn(e.now), Restart(e.now)];
    }
  }

  lemma SilenceKeepsInv(b: Browser, s: Call, now: int)
    requires Inv(s)
    ensures Inv(HandleSilence(b, s, now))
  {
    if Speaks(s, now) {
      if s.streak + 1 < MAX_CHECK_INS {
        Climb(s.log, s.since, s.streak, CheckIn(now));
        Climb(s.log + [CheckIn(now)], s.since, s.streak + 1, Restart(now));
      } else {
        Climb(s.log, s.since, s.streak, Closing(now));
      }
    }
  }

  lemma StepKeepsInv(b: Browser, s: Call, e: Event)
    requires Inv(s) && Enabled(s, e)
    ensures Inv(Next(b, s, e))
  {
    match e
    case Silence(now) => SilenceKeepsInv(b, s, now);
    case Transcript(now) => ResetKeepsInv(s, now);
    case StartCall(now) => ResetKeepsInv(s, now);
    case Reply(x, _, now) => RestartKeepsInv(b, s, now);
    case Spoken(now) => RestartKeepsInv(b, s, now);
    case EndCall(now) => ResetKeepsInv(s, now);
    case Tap(now) =>
      ResetKeepsInv(s, now);
      RestartKeepsInv(b, s, now);
    case _ =>
  }

  lemma ResetKeepsInv(s: Call, now: int)
    requires Inv(s)
    ensures Inv(ResetLadder(s, now))
  {
    Climb(s.log, s.since, s.streak, Reset(now));
  }

  lemma RestartKeepsInv(b: Browser, s: Call, now: int)
    requires Inv(s)
    ensures Inv(ResumeListening(b, s, now))
  {
    Climb(s.log, s.since, s.streak, Restart(now));
  }

  lemma {:induction false} RunKeepsInv(b: Browser, s: Call, events: seq<Event>)
    requires Inv(s) && Runs(b, s, events)
    ensures Inv(After(b, s, events))
    decreases |events|
  {
    if events != [] {
      StepKeepsInv(b, s, events[0]);
      RunKeepsInv(b, Next(b, s, events[0]), events[1..]);
    }
  }

  /** In every run, with any barge-ins, stale renders and stray callbacks: each nudge waits
      45 seconds from the latest restart of the clock; between two resets come at most
      MAX_CHECK_INS - 1 check-ins, and closings only after all of them. */
  lemma RunClimbsTheLadder(b: Browser, mounted: int, events: seq<Event>)
    requires Runs(b, Mounted(mounted), events)
    ensures Ladder(After(b, Mounted(mounted), events).log)
    ensures forall k | 0 <= k <= |After(b, Mounted(mounted), events).log| ::
              CheckIns(After(b, Mounted(mounted), events).log[..k]) <= MAX_CHECK_INS - 1
  {
    var s := Mounted(mounted);
    assert Inv(s);
    RunKeepsInv(b, s, events);
    var log := After(b, s, events).log;
    forall k | 0 <= k <= |log| ensures CheckIns(log[..k]) <= MAX_CHECK_INS - 1 {
      LadderBoundsCheckIns(log, k);
    }
  }

  lemma {:induction false} LadderBoundsCheckIns(log: seq<Entry>, k: nat)
    requires Ladder(log) && k <= |log|
    ensures CheckIns(log[..k]) <= MAX_CHECK_INS - 1
    decreases k
  {
    if k > 0 {
      LadderBoundsCheckIns(log, k - 1);
      assert log[..k][..k - 1] == log[..k - 1];
      assert Due(log[..k - 1], log[k - 1]);
    }
  }

  // ----- Spacing -----

  function Last(log: seq<Entry>): Entry
    requires log != []
  {
    log[|log| - 1]
  }

  predicate TimesNeverFall(log: seq<Entry>) {
    forall i, j | 0 <= i < j < |log| :: log[i].at <= log[j].at
  }

  /** Any two nudges are at least 45 seconds apart. */
  predicate Spaced(log: seq<Entry>) {
    forall i, j | 0 <= i < j < |log| && Nudge(log[i]) && Nudge(log[j]) ::
      log[j].at >= log[i].at + SILENCE_BEFORE_CHECK_IN_MS
  }

  ghost predicate Regular(s: Call) { Inv(s) && TimesNeverFall(s.log) && Spaced(s.log) }

  lemma MountedIsRegular(now: int)
    ensures Regular(Mounted(now))
  {
    assert Mounted(now).log[..0] == [];
  }

  /** The clock does not run backwards. */
  predicate Rising(s: Call, e: Event) {
    (e.Silence? || e.Transcript? || e.StartCall? || e.Reply? || e.Spoken? || e.EndCall? || e.Tap?) && s.log != []
    ==> e.now >= Last(s.log).at
  }

  ghost predicate RisingRun(b: Browser, s: Call, events: seq<Event>)
    requires Runs(b, s, events)
    decreases |events|
  {
    events == [] || (Rising(s, events[0]) && RisingRun(b, Next(b, s, events[0]), events[1..]))
  }

  /** A nudge was the last thing to happen, and the handlers still see a listening call. */
  predicate Rushed(s: Call) {
    s.seen == Listening && s.log != [] && Nudge(Last(s.log))
  }

  /** A silent turn, whenever it comes, would keep nudges apart. */
  ghost predicate SilenceIsSafe(b: Browser, s: Call)
    requires s.log != []
  {
    forall now | now >= Last(s.log).at :: Spaced(HandleSilence(b, s, now).log)
  }

  /** A nudge from an unrushed state comes 45 seconds after everything. */
  lemma UnrushedNudgeIsLate(s: Call, now: int, i: nat)
    requires Regular(s) && Speaks(s, now) && !Rushed(s) && i < |s.log|
    ensures now >= s.log[i].at + SILENCE_BEFORE_CHECK_IN_MS
  {
    assert s.since == Last(s.log).at;
  }

  /** A rushed state nudges at once. */
  lemma RushedSpeaks(s: Call, now: int)
    requires Inv(s) && Rushed(s) && now >= Last(s.log).at
    ensures Speaks(s, now)
  {
    assert Due(s.log[..|s.log| - 1], s.log[|s.log| - 1]);
  }

  lemma RushedSilence(b: Browser, s: Call, now: int)
    requires Regular(s) && Rushed(s) && now >= Last(s.log).at
    ensures Spaced(HandleSilence(b, s, now).log) <==> now >= Last(s.log).at + SILENCE_BEFORE_CHECK_IN_MS
  {
    var n, log := |s.log|, HandleSilence(b, s, now).log;
    RushedSpeaks(s, now);
    StepWrites(b, s, Silence(now));
    assert forall i | 0 <= i < n :: log[i] == s.log[i];
    assert Nudge(log[n - 1]) && Nudge(log[n]) && log[n].at == now;
  }

  lemma UnrushedSilence(b: Browser, s: Call, now: int)
    requires Regular(s) && !Rushed(s)
    ensures Spaced(HandleSilence(b, s, now).log)
  {
    StepWrites(b, s, Silence(now));
    if Speaks(s, now) {
      forall i: nat | i < |s.log| ensures now >= s.log[i].at + SILENCE_BEFORE_CHECK_IN_MS {
        UnrushedNudgeIsLate(s, now, i);
      }
    }
  }

  lemma SilenceSpaces(b: Browser, s: Call, now: int)
    requires Regular(s) && now >= Last(s.log).at
    ensures TimesNeverFall(HandleSilence(b, s, now).log)
    ensures Spaced(HandleSilence(b, s, now).log) <==>
            (Rushed(s) ==> now >= Last(s.log).at + SILENCE_BEFORE_CHECK_IN_MS)
  {
    StepWrites(b, s, Silence(now));
    if Rushed(s) {
      RushedSilence(b, s, now);
    } else {
      UnrushedSilence(b, s, now);
    }
  }

  /** In any state a call can be in, a silent turn is sure to keep nudges apart exactly when
      the state is not rushed. */
  lemma WhenSilenceIsSafe(b: Browser, s: Call)
    requires Regular(s)
    ensures SilenceIsSafe(b, s) <==> !Rushed(s)
  {
    forall now | now >= Last(s.log).at
      ensures Spaced(HandleSilence(b, s, now).log) <==>
              (Rushed(s) ==> now >= Last(s.log).at + SILENCE_BEFORE_CHECK_IN_MS)
    {
      SilenceSpaces(b, s, now);
    }
    if Rushed(s) {
      assert !Spaced(HandleSilence(b, s, Last(s.log).at).log);
    }
  }

  /** A silent turn that meets a rushed state comes 45 seconds after the nudge. */
  predicate Patient(s: Call, e: Event) {
    e.Silence? && Rushed(s) ==> e.now >= Last(s.log).at + SILENCE_BEFORE_CHECK_IN_MS
  }

  lemma QuietStepSpaces(b: Browser, s: Call, e: Event)
    requires Regular(s) && Enabled(s, e) && Rising(s, e) && !e.Silence?
    ensures TimesNeverFall(Next(b, s, e).log) && Spaced(Next(b, s, e).log)
  {
    StepWrites(b, s, e);
  }

  lemma StepSpaces(b: Browser, s: Call, e: Event)
    requires Regular(s) && Enabled(s, e) && Rising(s, e)
    ensures Regular(Next(b, s, e)) <==> Patient(s, e)
    ensures Spaced(Next(b, s, e).log) <==> Patient(s, e)
  {
    StepKeepsInv(b, s, e);
    if e.Silence? {
      SilenceSpaces(b, s, e.now);
    } else {
      QuietStepSpaces(b, s, e);
    }
  }

  ghost predicate AlwaysPatient(b: Browser, s: Call, events: seq<Event>)
    requires Runs(b, s, events)
    decreases |events|
  {
    events == [] || (Patient(s, events[0]) && AlwaysPatient(b, Next(b, s, events[0]), events[1..]))
  }

  lemma {:induction false} LogGrows(b: Browser, s: Call, events: seq<Event>)
    requires Runs(b, s, events)
    ensures s.log <= After(b, s, events).log
    decreases |events|
  {
    if events != [] {
      StepWrites(b, s, events[0]);
      LogGrows(b, Next(b, s, events[0]), events[1..]);
    }
  }

  /** Over any run with a rising clock, nudges are 45 seconds apart exactly when no silent
      turn meets a rushed state too soon. */
  lemma {:induction false} WhenNudgesAreSpaced(b: Browser, s: Call, events: seq<Event>)
    requires Regular(s) && Runs(b, s, events) && RisingRun(b, s, events)
    ensures Spaced(After(b, s, events).log) <==> AlwaysPatient(b, s, events)
    decreases |events|
  {
    if events != [] {
      var next := Next(b, s, events[0]);
      StepSpaces(b, s, events[0]);
      if Patient(s, events[0]) {
        WhenNudgesAreSpaced(b, next, events[1..]);
      } else {
        LogGrows(b, next, events[1..]);
        PrefixIsSpaced(next.log, After(b, s, events).log);
      }
    }
  }

  lemma PrefixIsSpaced(prefix: seq<Entry>, log: seq<Entry>)
    requires prefix <= log
    ensures Spaced(log) ==> Spaced(prefix)
  {
    assert forall i | 0 <= i < |prefix| :: prefix[i] == log[i];
  }

  ghost predicate AlwaysSafe(b: Browser, s: Call, events: seq<Event>)
    requires s.log != [] && Runs(b, s, events)
    decreases |events|
  {
    SilenceIsSafe(b, s) &&
    (events == [] || (StepWrites(b, s, events[0]); AlwaysSafe(b, Next(b, s, events[0]), events[1..])))
  }

  ghost predicate NeverRushed(b: Browser, s: Call, events: seq<Event>)
    requires Runs(b, s, events)
    decreases |events|
  {
    !Rushed(s) && (events == [] || NeverRushed(b, Next(b, s, events[0]), events[1..]))
  }

  /** Over any run with a rising clock, silent turns are safe throughout exactly when no state
      on the way is rushed. */
  lemma {:induction false} WhenSilenceIsAlwaysSafe(b: Browser, s: Call, events: seq<Event>)
    requires Regular(s) && Runs(b, s, events) && RisingRun(b, s, events)
    ensures AlwaysSafe(b, s, events) <==> NeverRushed(b, s, events)
    decreases |events|
  {
    WhenSilenceIsSafe(b, s);
    if events != [] && !Rushed(s) {
      StepSpaces(b, s, events[0]);
      WhenSilenceIsAlwaysSafe(b, Next(b, s, events[0]), events[1..]);
    }
  }

  // ----- What a render has to do with it -----

  /** A silent turn meets a rendered state. */
  predicate Rendered(s: Call, e: Event) { e.Silence? ==> s.seen == s.state }

  ghost predicate RenderedRun(b: Browser, s: Call, events: seq<Event>)
    requires Runs(b, s, events)
    decreases |events|
  {
    events == [] || (Rendered(s, events[0]) && RenderedRun(b, Next(b, s, events[0]), events[1..]))
  }

  /** To listen again is to restart the clock. */
  predicate ListensAfresh(s: Call) {
    s.log != [] && (s.state == Listening ==> !Nudge(Last(s.log)))
  }

  lemma StepListensAfresh(b: Browser, s: Call, e: Event)
    requires ListensAfresh(s) && Enabled(s, e)
    ensures ListensAfresh(Next(b, s, e))
  {
    StepWrites(b, s, e);
  }

  lemma {:induction false} RenderedIsPatient(b: Browser, s: Call, events: seq<Event>)
    requires ListensAfresh(s) && Runs(b, s, events) && RenderedRun(b, s, events)
    ensures AlwaysPatient(b, s, events)
    decreases |events|
  {
    if events != [] {
      StepListensAfresh(b, s, events[0]);
      RenderedIsPatient(b, Next(b, s, events[0]), events[1..]);
    }
  }

  /** So nudges are spaced in every run whose silent turns are handled after the render they
      call for. */
  lemma NudgesAreSpaced(b: Browser, mounted: int, events: seq<Event>)
    requires Runs(b, Mounted(mounted), events)
    requires RisingRun(b, Mounted(mounted), events) && RenderedRun(b, Mounted(mounted), events)
    ensures Spaced(After(b, Mounted(mounted), events).log)
  {
    MountedIsRegular(mounted);
    RenderedIsPatient(b, Mounted(mounted), events);
    WhenNudgesAreSpaced(b, Mounted(mounted), events);
  }

  lemma {:induction false} RunsConcat(b: Browser, s: Call, first: seq<Event>, second: seq<Event>)
    requires Runs(b, s, first) && Runs(b, After(b, s, first), second)
    ensures Runs(b, s, first + second) && After(b, s, first + second) == After(b, After(b, s, first), second)
    decreases |first|
  {
    if first == [] {
      assert first + second == second;
    } else {
      assert (first + second)[0] == first[0] && (first + second)[1..] == first[1..] + second;
      RunsConcat(b, Next(b, s, first[0]), first[1..], second);
    }
  }

  /** A call greeted, listening, and silent for 45 seconds. */
  function Greeted(t: int): seq<Event> {
    [StartCall(t), Connected, Reply(Greeting(0), false, t), Render]
  }

  function TwoTurns(t: int): seq<Event> {
    [Silence(t + SILENCE_BEFORE_CHECK_IN_MS), Silence(t + SILENCE_BEFORE_CHECK_IN_MS)]
  }

  /** A call can get there: two silent turns before the next render, and the check-in and the
      closing come in one breath. */
  lemma RushedCallCloses(t: int)
    ensures var b := Browser(true, true);
      && Runs(b, Mounted(t), Greeted(t) + TwoTurns(t))
      && !Spaced(After(b, Mounted(t), Greeted(t) + TwoTurns(t)).log)
  {
    var b, at := Browser(true, true), t + SILENCE_BEFORE_CHECK_IN_MS;
    var s0 := Mounted(t);
    var s1 := Next(b, s0, StartCall(t));
    var s2 := Next(b, s1, Connected);
    var s3 := Next(b, s2, Reply(Greeting(0), false, t));
    var s4 := Next(b, s3, Render);
    var events := Greeted(t);
    assert events[1..][1..][1..] == [Render] && [Render][1..] == [];
    assert Runs(b, s4, []) && After(b, s4, []) == s4;
    assert Runs(b, s3, [Render]) && After(b, s3, [Render]) == s4;
    assert Runs(b, s2, events[1..][1..]) && After(b, s2, events[1..][1..]) == s4;
    assert Runs(b, s1, events[1..]) && After(b, s1, events[1..]) == s4;
    assert Runs(b, s0, events) && After(b, s0, events) == s4;
    StaleRenderClosesAtOnce(b, s4, at);
    RunsConcat(b, s0, events, TwoTurns(t));
  }

  lemma StaleRenderClosesAtOnce(b: Browser, s: Call, now: int)
    requires s.seen == Listening && s.streak == 0 && b.tts && now - s.since >= SILENCE_BEFORE_CHECK_IN_MS
    ensures Runs(b, s, [Silence(now), Silence(now)])
    ensures After(b, s, [Silence(now), Silence(now)]).log == s.log + [CheckIn(now), Closing(now)]
    ensures !Spaced(s.log + [CheckIn(now), Closing(now)])
  {
    var once := Next(b, s, Silence(now));
    var twice := Next(b, once, Silence(now));
    assert [Silence(now), Silence(now)][1..] == [Silence(now)] && [Silence(now)][1..] == [];
    assert Runs(b, twice, []) && After(b, twice, []) == twice;
    assert Runs(b, once, [Silence(now)]) && After(b, once, [Silence(now)]) == twice;
    assert twice.log == s.log + [CheckIn(now)] + [Closing(now)];
    var log, n := s.log + [CheckIn(now), Closing(now)], |s.log|;
    assert Nudge(log[n]) && Nudge(log[n + 1]);
  }

  // ----- Ending the call -----

  /** Nothing the person does to start or resume. */
  predicate HandsOff(events: seq<Event>) {
    forall e | e in events :: !e.StartCall? && !e.Tap?
  }

  /** A silent turn meets a rendered state, or comes before a whole silence has passed since the
      clock was last restarted, as hanging up restarts it. */
  predicate Timely(s: Call, e: Event) {
    e.Silence? ==> s.seen == s.state || e.now - s.since < SILENCE_BEFORE_CHECK_IN_MS
  }

  ghost predicate TimelyRun(b: Browser, s: Call, events: seq<Event>)
    requires Runs(b, s, events)
    decreases |events|
  {
    events == [] || (Timely(s, events[0]) && TimelyRun(b, Next(b, s, events[0]), events[1..]))
  }

  /** Through every run whose silent turns are timely. */
  ghost predicate StaysIdle(b: Browser, s: Call) {
    forall events | Runs(b, s, events) && TimelyRun(b, s, events) && HandsOff(events) ::
      After(b, s, events).state == Idle
  }

  /** What can still wake an ended call: a session being created, a cut-off utterance whose
      callback reopens the microphone, or an exchange that was not the last one. */
  predicate Outstanding(b: Browser, s: Call) {
    s.starts > 0 || (b.stt && s.resumes > 0) || ((b.stt || b.tts) && s.exchanges != {})
  }

  ghost predicate Over(b: Browser, s: Call) {
    s.state == Idle && !s.session && !Outstanding(b, s)
  }

  lemma {:induction false} OverIsFinal(b: Browser, s: Call, events: seq<Event>)
    requires Over(b, s) && Runs(b, s, events) && TimelyRun(b, s, events) && HandsOff(events)
    ensures Over(b, After(b, s, events))
    decreases |events|
  {
    if events != [] {
      assert events[0] in events;
      OverIsFinal(b, Next(b, s, events[0]), events[1..]);
    }
  }

  /** One step that wakes an ended call with something outstanding. */
  ghost function Waking(b: Browser, s: Call): Event
    requires Outstanding(b, s)
  {
    if s.starts > 0 then Connected
    else if b.stt && s.resumes > 0 then Spoken(0)
    else
      var x :| x in s.exchanges;
      Reply(x, true, 0)
  }

  /** A call that has ended stays ended, until somebody starts or taps, exactly when nothing
      is outstanding. */
  lemma WhenEndedIsFinal(b: Browser, s: Call)
    requires s.state == Idle && !s.session
    ensures StaysIdle(b, s) <==> !Outstanding(b, s)
  {
    if !Outstanding(b, s) {
      forall events | Runs(b, s, events) && TimelyRun(b, s, events) && HandsOff(events)
        ensures After(b, s, events).state == Idle
      {
        OverIsFinal(b, s, events);
      }
    } else {
      var e := Waking(b, s);
      assert [e][1..] == [] && Runs(b, Next(b, s, e), []) && TimelyRun(b, Next(b, s, e), []);
      assert Runs(b, s, [e]) && TimelyRun(b, s, [e]) && After(b, s, [e]) == Next(b, s, e);
      assert HandsOff([e]) && After(b, s, [e]).state != Idle;
    }
  }

  /** Hanging up is final exactly when no session is being created, no utterance that would
      resume is cut off where recognition exists, and no exchange but the last was open. */
  lemma WhenEndingIsFinal(b: Browser, s: Call, now: int)
    ensures StaysIdle(b, HangUp(s, now)) <==>
      && s.starts == 0 && !(b.stt && s.resumes > 0)
      && (b.stt || b.tts ==> forall x | x in s.exchanges :: s.abort == Some(x))
  {
    var ended := HangUp(s, now);
    WhenEndedIsFinal(b, ended);
    if x :| x in s.exchanges && s.abort != Some(x) {
      assert x in ended.exchanges;
    }
  }

  // ----- A call from start to end -----

  /** Starting shows that it connects, whatever call has ended before; a session created greets, one
      that fails leaves the call idle. Either exchange opened is the one that hanging up cuts. */
  lemma HowACallBegins(b: Browser, s: Call, now: int)
    ensures var n := Next(b, s, StartCall(now));
      && n.state == Connecting && !n.ended && n.session == s.session && n.exchanges == s.exchanges
      && Enabled(n, Connected) && Enabled(n, ConnectFailed)
      && (var up := Next(b, n, Connected);
          && up.state == Thinking && up.session && Greeting(s.asked) in up.exchanges
          && up.abort == Some(Greeting(s.asked)) && up.starts == s.starts)
      && (var down := Next(b, n, ConnectFailed);
          down.state == Idle && down.session == s.session && down.starts == s.starts)
  {
  }

  /** Anything heard in a call that has a session and does not think opens an answer. */
  lemma HowAnAnswerBegins(b: Browser, s: Call, now: int)
    ensures var n := Next(b, s, Transcript(now));
      if s.session && s.seen != Thinking
      then
        && n.state == Thinking && Answer(s.asked) in n.exchanges && n.abort == Some(Answer(s.asked))
        && n.asked == s.asked + 1 && s.exchanges <= n.exchanges
      else n == s
  {
  }

  /** A reply is spoken, if there are words and a voice for them, and the call listens afterwards;
      without recognition it is idle then. */
  lemma HowAReplyEnds(b: Browser, s: Call, x: Exchange, text: bool, now: int, later: int)
    requires x in s.exchanges
    ensures Enabled(s, Reply(x, text, now))
    ensures var n := Next(b, s, Reply(x, text, now));
      && n.exchanges == s.exchanges - {x}
      && if b.tts && text
         then
           && n.state == Speaking && n.resumes == s.resumes + 1 && Enabled(n, Spoken(later))
           && Next(b, n, Spoken(later)).state == (if b.stt then Listening else Idle)
           && Next(b, n, Spoken(later)).resumes == s.resumes
         else n.state == (if b.stt then Listening else Idle) && n.resumes == s.resumes
  {
  }

  /** The last answer of all, never a greeting, ends the call: at once, or when it has been spoken. */
  lemma HowACallEnds(b: Browser, s: Call, x: Exchange, text: bool)
    ensures Enabled(s, LastReply(x, text)) <==> x in s.exchanges && x.Answer?
    ensures Enabled(s, LastReply(x, text)) ==>
      var n := Next(b, s, LastReply(x, text));
      && n.exchanges == s.exchanges - {x}
      && if b.tts && text
         then
           && n.state == Speaking && n.ended == s.ended && Enabled(n, ClosingSpoken)
           && var end := Next(b, n, ClosingSpoken); end.state == Idle && end.ended && end.finishes == s.finishes
         else n.state == Idle && n.ended && n.finishes == s.finishes
    ensures !Mounted(0).ended && !Mounted(0).session && Mounted(0).state == Idle == Mounted(0).seen
  {
  }

  /** Two nudges: one check-in, then the closing, after which the call ends; each after 45 seconds. */
  lemma HowSilenceEndsACall(b: Browser, s: Call, now: int)
    requires s.seen == Listening && s.streak == 1 && now - s.since >= 45000
    ensures var n := Next(b, s, Silence(now));
      && n.log == s.log + [Closing(now)]
      && if b.tts
         then
           && n.state == Speaking && Enabled(n, ClosingSpoken)
           && Next(b, n, ClosingSpoken).state == Idle && Next(b, n, ClosingSpoken).ended
         else n.state == Idle && n.ended
    ensures SILENCE_BEFORE_CHECK_IN_MS == 45000 && MAX_CHECK_INS == 2
  {
  }
}
