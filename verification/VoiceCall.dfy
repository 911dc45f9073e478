/** The voice-call loop (frontend/src/hooks/useVoiceCall.ts): one step per handler, callbacks
    of speech, exchanges and session creation arriving in any order. */
module VoiceCall {
  import opened Basics

  datatype CallState = Idle | Connecting | Listening | Thinking | Speaking

  const MAX_CHECK_INS := 2
  const SILENCE_BEFORE_CHECK_IN_MS := 45000

  /** What the browser offers: recognition and speech. */
  datatype Browser = Browser(stt: bool, tts: bool)

  /** What happened to the silence ladder: a reset also restarts the clock. */
  datatype Entry = Reset(at: int) | Restart(at: int) | CheckIn(at: int) | Closing(at: int)

  datatype Exchange = Greeting(id: nat) | Answer(id: nat)

  /** `seen` is stateRef: the state of the last render. `starts` counts session creations
      awaited, `resumes` and `finishes` the utterances whose callback is still to come. */
  datatype Call = Call(
    state: CallState, seen: CallState, ended: bool, session: bool, streak: nat, since: int,
    starts: nat, exchanges: set<Exchange>, abort: Option<Exchange>, asked: nat,
    resumes: nat, finishes: nat, log: seq<Entry>)

  /** A time is a reading of Date.now(); `text` says whether there is anything to speak. */
  datatype Event =
    | Render
    | Silence(now: int)
    | Transcript(now: int)
    | StartCall(now: int)
    | Connected
    | ConnectFailed
    | Reply(from: Exchange, text: bool, now: int)
    | LastReply(from: Exchange, text: bool)
    | Spoken(now: int)
    | ClosingSpoken
    | EndCall(now: int)
    | Tap(now: int)

  function Mounted(now: int): Call {
    Call(Idle, Idle, false, false, 0, now, 0, {}, None, 0, 0, 0, [Reset(now)])
  }

  /** Callbacks come only from what is outstanding; onEnded only answers an `ask`. */
  predicate Enabled(s: Call, e: Event) {
    match e
    case Connected => s.starts > 0
    case ConnectFailed => s.starts > 0
    case Reply(x, _, _) => x in s.exchanges
    case LastReply(x, _) => x in s.exchanges && x.Answer?
    case Spoken(_) => s.resumes > 0
    case ClosingSpoken => s.finishes > 0
    case _ => true
  }

  // ----- The handlers -----

  function ResumeListening(b: Browser, s: Call, now: int): Call {
    s.(since := now, state := if b.stt then Listening else Idle, log := s.log + [Restart(now)])
  }

  /** `speak(text, resumeListening)`. */
  function SpeakThenResume(b: Browser, s: Call, text: bool, now: int): Call {
    if b.tts && text then s.(resumes := s.resumes + 1) else ResumeListening(b, s, now)
  }

  function AfterReply(b: Browser, s: Call, text: bool, now: int): Call {
    if b.tts then SpeakThenResume(b, s.(state := Speaking), text, now) else ResumeListening(b, s, now)
  }

  function FinishCall(b: Browser, s: Call, text: bool): Call {
    if b.tts && text then s.(state := Speaking, finishes := s.finishes + 1) else s.(state := Idle, ended := true)
  }

  predicate Speaks(s: Call, now: int) {
    s.seen == Listening && now - s.since >= SILENCE_BEFORE_CHECK_IN_MS
  }

  function HandleSilence(b: Browser, s: Call, now: int): Call {
    if !Speaks(s, now) then s
    else
      var counted := s.(streak := s.streak + 1);
      if counted.streak < MAX_CHECK_INS
      then SpeakThenResume(b, counted.(state := Speaking, log := s.log + [CheckIn(now)]), true, now)
      else FinishCall(b, counted.(log := s.log + [Closing(now)]), true)
  }

  function Opened(s: Call, x: Exchange): Call {
    s.(state := Thinking, exchanges := s.exchanges + {x}, abort := Some(x), asked := s.asked + 1)
  }

  function ResetLadder(s: Call, now: int): Call {
    s.(streak := 0, since := now, log := s.log + [Reset(now)])
  }

  function HandleTranscript(s: Call, now: int): Call {
    if !s.session || s.seen == Thinking then s else Opened(ResetLadder(s, now), Answer(s.asked))
  }

  function BeginCall(s: Call, now: int): Call {
    ResetLadder(s, now).(state := Connecting, ended := false, starts := s.starts + 1)
  }

  /** The abort function silences the latest exchange; cancelling speech leaves it to report
      through its callback. */
  function HangUp(s: Call, now: int): Call {
    ResetLadder(s, now).(
      exchanges := if s.abort.Some? then s.exchanges - {s.abort.value} else s.exchanges,
      session := false,
      state := Idle)
  }

  function OrbTap(b: Browser, s: Call, now: int): Call {
    if s.seen == Idle then BeginCall(s, now)
    else if s.seen == Speaking then ResumeListening(b, s, now)
    else s
  }

  function Next(b: Browser, s: Call, e: Event): Call
    requires Enabled(s, e)
  {
    match e
    case Render => s.(seen := s.state)
    case Silence(now) => HandleSilence(b, s, now)
    case Transcript(now) => HandleTranscript(s, now)
    case StartCall(now) => BeginCall(s, now)
    case Connected => Opened(s.(starts := s.starts - 1, session := true), Greeting(s.asked))
    case ConnectFailed => s.(starts := s.starts - 1, state := Idle)
    case Reply(x, text, now) => AfterReply(b, s.(exchanges := s.exchanges - {x}), text, now)
    case LastReply(x, text) => FinishCall(b, s.(exchanges := s.exchanges - {x}), text)
    case Spoken(now) => ResumeListening(b, s.(resumes := s.resumes - 1), now)
    case ClosingSpoken => s.(finishes := s.finishes - 1, state := Idle, ended := true)
    case EndCall(now) => HangUp(s, now)
    case Tap(now) => OrbTap(b, s, now)
  }
}
