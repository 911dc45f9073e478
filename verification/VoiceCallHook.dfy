/** The hook's own refs and state, updated handler by handler. Each handler does one step of
    VoiceCall and keeps the silence ladder; what it means for the ladder stands beside. */
module VoiceCallHook {
  import opened Basics
  import opened VoiceCall
  import opened VoiceCallRuns

  /** A silent turn that speaks, up to the speaking. */
  function Nudged(s: Call, e: Entry): Call { s.(streak := s.streak + 1, log := s.log + [e]) }

  function NudgeOf(s: Call, now: int): Entry {
    if s.streak + 1 < MAX_CHECK_INS then CheckIn(now) else Closing(now)
  }

  lemma NudgedCounts(s: Call, now: int)
    requires Inv(s) && Speaks(s, now)
    ensures var e := NudgeOf(s, now); var n := Nudged(s, e);
      && Inv(n) && Nudges(n.log) == Nudges(s.log) + 1
      && CheckIns(n.log) == CheckIns(s.log) + (if e.CheckIn? then 1 else 0)
      && (e.Closing? ==> CheckIns(s.log) == MAX_CHECK_INS - 1)
  {
    Climb(s.log, s.since, s.streak, NudgeOf(s, now));
    assert (s.log + [NudgeOf(s, now)])[..|s.log|] == s.log;
  }

  /** Nothing is said before a whole silence has passed since the last restart of the clock;
      then a check-in while any is left, else the closing, which ends the listening. */
  ghost predicate SaysInTurn(s: Call, n: Call, now: int) {
    && (n.log == s.log || now - LastRestart(s.log) >= SILENCE_BEFORE_CHECK_IN_MS)
    && CheckIns(n.log) <= MAX_CHECK_INS - 1
    && (Nudges(n.log) > Nudges(s.log) && CheckIns(n.log) == CheckIns(s.log) ==>
          CheckIns(s.log) == MAX_CHECK_INS - 1 && n.state != Listening)
  }

  lemma SilenceSays(b: Browser, s: Call, now: int)
    requires Inv(s)
    ensures Inv(HandleSilence(b, s, now)) && SaysInTurn(s, HandleSilence(b, s, now), now)
  {
    SilenceKeepsInv(b, s, now);
    if Speaks(s, now) {
      NudgedCounts(s, now);
      EntryCounts(s.log + [NudgeOf(s, now)], Restart(now));
    }
  }

  lemma HangUpLeaves(b: Browser, s: Call, now: int)
    requires Inv(s)
    ensures var n := HangUp(s, now);
      && Inv(n) && CheckIns(n.log) == 0 && Nudges(n.log) == 0 && LastRestart(n.log) == now
      && (StaysIdle(b, n) <==> !Outstanding(b, n))
  {
    StepKeepsInv(b, s, Event.EndCall(now));
    WhenEndedIsFinal(b, HangUp(s, now));
    EntryCounts(s.log, Entry.Reset(now));
  }

  class VoiceCallHook {
    const browser: Browser
    var state: CallState
    var stateRef: CallState
    var ended: bool
    var sessionRef: bool
    var abortRef: Option<Exchange>
    var silenceStreakRef: nat
    var silenceSinceRef: int

    ghost var starts: nat
    ghost var exchanges: set<Exchange>
    var asked: nat
    ghost var resumes: nat
    ghost var finishes: nat
    ghost var log: seq<Entry>

    ghost function Abs(): Call
      reads this
    {
      Call(state, stateRef, ended, sessionRef, silenceStreakRef, silenceSinceRef,
           starts, exchanges, abortRef, asked, resumes, finishes, log)
    }

    constructor (browser: Browser, now: int)
      ensures this.browser == browser && Abs() == Mounted(now) && Inv(Abs())
    {
      this.browser := browser;
      state, stateRef, ended, sessionRef := Idle, Idle, false, false;
      abortRef, silenceStreakRef, silenceSinceRef := None, 0, now;
      starts, exchanges, asked, resumes, finishes := 0, {}, 0, 0, 0;
      log := [Entry.Reset(now)];
      MountedIsRegular(now);
    }

    /** resumeListening: the clock starts over, the ladder does not. */
    method Resume(now: int)
      modifies this
      ensures Abs() == ResumeListening(browser, old(Abs()), now)
      ensures Inv(old(Abs())) ==> Inv(Abs())
      ensures LastRestart(log) == now && CheckIns(log) == CheckIns(old(log)) && Nudges(log) == Nudges(old(log))
      ensures !Rushed(Abs())
    {
      if Inv(Abs()) {
        RestartKeepsInv(browser, Abs(), now);
      }
      EntryCounts(log, Restart(now));
      silenceSinceRef := now;
      log := log + [Restart(now)];
      if browser.stt {
        state := Listening;
      } else {
        state := Idle;
      }
    }

    method Speak(text: bool, now: int)
      modifies this
      ensures Abs() == SpeakThenResume(browser, old(Abs()), text, now)
      ensures Inv(old(Abs())) ==> Inv(Abs())
    {
      if !browser.tts || !text {
        Resume(now);
        return;
      }
      resumes := resumes + 1;
    }

    /** afterReply: no reply uses up thinking time. Either the clock has started over, or an
        utterance is pending whose end will start it. */
    method ReplyDone(from: Exchange, text: bool, now: int)
      requires Inv(Abs()) && Enabled(Abs(), Event.Reply(from, text, now))
      modifies this
      ensures Abs() == Next(browser, old(Abs()), Event.Reply(from, text, now))
      ensures Inv(Abs()) && from !in exchanges
      ensures LastRestart(log) == now || (state == Speaking && resumes > old(resumes))
    {
      exchanges := exchanges - {from};
      if browser.tts {
        state := Speaking;
        Speak(text, now);
      } else {
        Resume(now);
      }
      assert Abs() == AfterReply(browser, old(Abs()).(exchanges := exchanges), text, now);
      StepKeepsInv(browser, old(Abs()), Event.Reply(from, text, now));
    }

    /** finishCall: the call is over, or will be when its last words are spoken. */
    method Finish(text: bool)
      modifies this
      ensures Abs() == FinishCall(browser, old(Abs()), text)
      ensures Inv(old(Abs())) ==> Inv(Abs()) && log == old(log)
      ensures (state == Idle && ended) || (state == Speaking && finishes > old(finishes))
    {
      if browser.tts {
        state := Speaking;
        if text {
          finishes := finishes + 1;
        } else {
          state := Idle;
          ended := true;
        }
      } else {
        state := Idle;
        ended := true;
      }
    }

    /** handleSilence: what it says is said in turn. */
    method OnSilence(now: int)
      requires Inv(Abs())
      modifies this
      ensures Abs() == Next(browser, old(Abs()), Silence(now))
      ensures Inv(Abs())
      ensures SaysInTurn(old(Abs()), Abs(), now)
    {
      ghost var before, after := Abs(), HandleSilence(browser, Abs(), now);
      SilenceSays(browser, before, now);
      if stateRef != Listening {
        return;
      }
      if now - silenceSinceRef < SILENCE_BEFORE_CHECK_IN_MS {
        return;
      }
      silenceStreakRef := silenceStreakRef + 1;
      if silenceStreakRef < MAX_CHECK_INS {
        log := log + [CheckIn(now)];
        state := Speaking;
        Speak(true, now);
      } else {
        log := log + [Closing(now)];
        Finish(true);
      }
      assert Abs() == after;
    }

    /** handleTranscript: anything heard, in a call that is not thinking, clears the ladder
        and opens one new exchange. */
    method OnTranscript(now: int)
      requires Inv(Abs())
      modifies this
      ensures Abs() == Next(browser, old(Abs()), Transcript(now))
      ensures Inv(Abs())
      ensures if old(sessionRef) && old(stateRef) != Thinking
              then
                && CheckIns(log) == 0 && Nudges(log) == 0 && LastRestart(log) == now
                && exists x :: x !in old(exchanges) && exchanges == old(exchanges) + {x} && abortRef == Some(x)
              else Abs() == old(Abs())
    {
      StepKeepsInv(browser, Abs(), Transcript(now));
      if !sessionRef || stateRef == Thinking {
        return;
      }
      EntryCounts(log, Entry.Reset(now));
      silenceStreakRef := 0;
      silenceSinceRef := now;
      log := log + [Entry.Reset(now)];
      state := Thinking;
      var x := Answer(asked);
      exchanges, abortRef, asked := exchanges + {x}, Some(x), asked + 1;
    }

    /** startCall up to its await: the ladder is cleared, one more session is awaited. */
    method Start(now: int)
      requires Inv(Abs())
      modifies this
      ensures Abs() == Next(browser, old(Abs()), Event.StartCall(now))
      ensures Inv(Abs())
      ensures CheckIns(log) == 0 && Nudges(log) == 0 && LastRestart(log) == now
      ensures Enabled(Abs(), Connected) && Enabled(Abs(), ConnectFailed)
    {
      StepKeepsInv(browser, Abs(), Event.StartCall(now));
      EntryCounts(log, Entry.Reset(now));
      state := Connecting;
      ended := false;
      silenceStreakRef := 0;
      silenceSinceRef := now;
      log := log + [Entry.Reset(now)];
      starts := starts + 1;
    }

    /** startCall after its await: even a call ended meanwhile gets its session, and a new
        greeting is what ending it would now cut. */
    method SessionCreated(created: bool)
      requires Inv(Abs()) && starts > 0
      modifies this
      ensures Abs() == Next(browser, old(Abs()), if created then Connected else ConnectFailed)
      ensures Inv(Abs()) && log == old(log)
      ensures if created
              then
                && sessionRef
                && exists x :: x !in old(exchanges) && exchanges == old(exchanges) + {x} && abortRef == Some(x)
              else state == Idle && exchanges == old(exchanges)
    {
      starts := starts - 1;
      if created {
        sessionRef := true;
        state := Thinking;
        var x := Greeting(asked);
        exchanges, abortRef, asked := exchanges + {x}, Some(x), asked + 1;
      } else {
        state := Idle;
      }
    }

    /** endCall: the ladder is cleared, and the call stays idle exactly when nothing is
        outstanding. */
    method End(now: int)
      requires Inv(Abs())
      modifies this
      ensures Abs() == Next(browser, old(Abs()), Event.EndCall(now))
      ensures Inv(Abs()) && CheckIns(log) == 0 && Nudges(log) == 0 && LastRestart(log) == now
      ensures StaysIdle(browser, Abs()) <==> !Outstanding(browser, Abs())
    {
      ghost var hungUp := HangUp(Abs(), now);
      if abortRef.Some? {
        exchanges := exchanges - {abortRef.value};
      }
      sessionRef := false;
      silenceStreakRef := 0;
      silenceSinceRef := now;
      log := log + [Entry.Reset(now)];
      state := Idle;
      assert Abs() == hungUp;
      HangUpLeaves(browser, old(Abs()), now);
    }

    /** orbTap: a barge-in restarts the clock and clears nothing; a tap on an idle call clears
        the ladder; any other tap does nothing. */
    method OnOrbTap(now: int)
      requires Inv(Abs())
      modifies this
      ensures Abs() == Next(browser, old(Abs()), Tap(now))
      ensures Inv(Abs())
      ensures old(stateRef) == Speaking ==> LastRestart(log) == now && Nudges(log) == Nudges(old(log))
      ensures old(stateRef) == Idle ==> Nudges(log) == 0 && LastRestart(log) == now
      ensures old(stateRef) != Speaking && old(stateRef) != Idle ==> Abs() == old(Abs())
    {
      if stateRef == Idle {
        Start(now);
      } else if stateRef == Speaking {
        Resume(now);
      }
    }
  }
}
