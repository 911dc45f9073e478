# What the assistant platform promises, proved in Dafny

This project models the stateful and arithmetic cores of the platform and proves what they keep in
every run, over every input. Where the code does less than its comments promise, the exact condition
under which it meets the promise is proved, with an input that breaks it.

Each file is one module, and follows one component:

| files | component |
|---|---|
| HttpPool | the process-wide HTTP clients: a double-checked lock and a closer that awaits while holding it |
| EventStream, EventStreamRoundTrip | the streaming parser of server-sent events (sections 9.2.5 and 9.2.6 of the WHATWG HTML Living Standard) |
| Sessions, SessionRuns, SessionManager | the WhatsApp bridge's sockets, retry counters and reconnect timers |
| AuthStore, AuthStoreMap | the credentials table behind a WhatsApp session |
| History | importing the history a phone hands over, beside the live path |
| Metrics | ranked-retrieval metrics |
| Reservations, ReservationRuns | the double-booking guard and the statements issued against it |
| Availability, Slots | the availability engine after time zones are resolved |
| Booking | where the engine meets the guard: loading the world, resolving and holding a slot |
| SearchWorld, OfferCarries, SearchAndHold | from a slot the search offered to the same slot resolved, date by date |
| CanonicalNumbers | the migration that canonicalises stored phone numbers |
| FlowSections | the conversational-flow editor |
| VoiceCall, VoiceCallRuns, VoiceCallHook | the voice-call loop and its silence ladder |
| VoiceMic, VoiceLoop | the microphone under it and the renders its callbacks come from; call and microphone together |
| AvatarHash | the 32-bit avatar hashes |
| Basics | what several modules share |

Concurrent code (HttpPool, Sessions, VoiceCall, VoiceLoop, AuthStore) is a state machine whose steps are what
runs between two awaits, or inside one callback; runs are arbitrary sequences of enabled steps, so
the lemmas about runs cover every interleaving. Beside each machine a class holds the component's
own fields; each of its methods does one step of the machine, keeps the machine's invariant, and says
what its caller may count on afterwards. Loops of the source are methods with loops.
`dafny verify dfyconfig.toml` checks the whole project.

Read first: `HttpPool.AtMostOneOpenClientPerName`, `EventStream.ChunkIndependence`,
`EventStreamRoundTrip.RoundTrip`, `SessionRuns.WhenStopIsFinal`, `AuthStoreMap.RunRefines`,
`Metrics.NdcgIsOne`, `ReservationRuns.CalendarNeverOverflows`, `Slots.ComputeSlots`,
`Booking.WhenSearchCanBeTrusted`, `SearchAndHold.WhenOfferIsFound`,
`FlowSections.WhenPositionsFollowRows`, `VoiceCallRuns.RunClimbsTheLadder`,
`VoiceCallRuns.WhenNudgesAreSpaced`, `VoiceLoop.OneRecogniserSpaces`, `VoiceLoop.WhenOnlyTypingHelps`.

## Where code and intention differ

- "\r\n" is normalised chunk by chunk, so a cut between the two loses a blank line and an event.
  Raw events and leftover are independent of the chunking exactly when there is no such cut
  (`ChunkIndependence`).
- After its awaits the `connection.update` handler does not look at its guard again, nor does a
  reconnect after a failed start: a `stop` during such an await is undone. `WhenStopIsFinal` gives
  the exact condition. Overlapping starts, a log-out clean-up that finishes after a new start, and an
  unlinking stop whose `logout()` fails lose a working socket (`WhenASocketLeaks`,
  `OverlappingStartsLeak`, `FailedLogoutLeaks`). `shutdown` misses the timers of sessions without a
  socket (`ShutdownMissesTimers`). `start` resets the counter, so the backoff grows only while no
  start, stop or open comes between reconnects (`WhenDelaysStayAtBase`).
- `keys.set` and `keys.get` are a plain map exactly when no two (type, id) pairs in use join to one
  key; "a-b" with "c" and "a" with "b-c" do (`WhenStoreIsMap`, `JoinedCanCollide`).
- compute_slots is documented so that its slots need no re-check, but busy time and blocked periods
  are queried for the requested range without the service's buffers. A reservation inside a buffer
  and outside the range goes unseen, and the insert then conflicts; a blocked period there goes
  unseen, and the slot is held although it is blocked: half an hour at 10:00 with ten minutes of
  clean-up, the branch closing at 10:35 (`ClosureInBufferIsMissed`). Either query can be trusted
  exactly when its window contains the buffered block; for resolve_slot, when neither buffer exceeds
  a minute (`WhenSearchCanBeTrusted`, `WhenBlocksCanBeTrusted`, `WhenResolvingCanBeTrusted`,
  `WhenResolvingSeesBlocks`).
- The hold is documented to see the world of the search, but resolve_slot loads a minute beside the
  appointment and reads rules for the dates of that window only. A slot offered at the edge of the
  search's range may not resolve: 16:00 to 16:30 with ten minutes of clean-up, found by a search until
  16:30, when a closure begins (`ClosingTimeIsLost`). Nor may one served by a rule of another date in
  the resource's own zone: a practitioner in Tokyo, Monday 00:00 to 08:00, offered at a branch in UTC
  on Sunday 16:00 (`TokyoMondayIsLost`). `WhenOfferIsFound` gives the exact condition.
- A role without candidates is documented to make the service unbookable, but the loader drops a role
  whose every resource is inactive or at another branch, and the slot is offered and held without it
  (`HeldWithoutARoom`; exact condition in `WhenEveryRoleIsServed`).
- The greedy pick is documented for roles that share no resource, which the link table does not
  demand; with a shared one it can miss a slot that could be served (`GreedyMissesAPick`).
- History reads a Long timestamp by its low word, the live path by its value: the two agree until
  January 2038, and on no negative number (`WhenRowsAgree`, `StampAfter2038`).
- Migration 0027 looks for a holder of the canonical form in the snapshot: two spellings of one
  number that nobody holds canonically collide, and the whole statement fails
  (`TwoSpellingsStopTheMigration`). Without such a pair it succeeds (`WhenMigrationSucceeds`).
- The flow editor does not clear its expanded positions when the stock sections replace the list
  (`ResetReopens`; exact conditions in `WhenPositionsFollowRows` and `WhenExpansionStaysInRange`).
- MAX_CHECK_INS is 2 and commented "after this many check-ins", but one check-in is spoken before
  the closing line (`RunClimbsTheLadder`). The guard of handleSilence reads the last rendered state,
  so two silent turns before a render check in and close in one breath (`RushedCallCloses`; exact
  conditions in `WhenSilenceIsSafe` and `WhenNudgesAreSpaced`). It takes two recognisers, which a tap
  during the greeting starts (`CutOffCallCloses`, `OneRecogniserSpaces`). endCall leaves a pending
  session creation, the callback of the cut-off utterance and every exchange but the last alive, and
  each reopens the call (`WhenEndingIsFinal`).
- A turn's end queues `listening = false` and calls handlers of a render that was still listening, so
  their `startListening` does nothing. A short silence does not re-arm the microphone unless an error,
  another turn's end or a stop was rendered before it (`WhenAShortSilenceRearms`), and the reply to a
  spoken answer does not turn it on again (`WhenATurnEndsTheListening`). A tap helps only while that
  reply is being spoken; afterwards the call shows that it listens, and only typing, hanging up or
  starting again helps (`OneAnswerThenOnlyTyping`; exact condition in `WhenOnlyTypingHelps`).

## Model

| member | source | states |
|---|---|---|
| HttpPool.StepKeepsInv | src/infrastructure/http_client.py:48-100 | every step between two awaits, of any coroutine, keeps: clients belong to their names, no open client is lost, only the lock holder closes and what it has passed is closed or failed |
| HttpPool.RunKeepsInv | src/infrastructure/http_client.py:44-100 | so does every interleaving of get_client, close_clients, cancellations and outside closes |
| HttpPool.AtMostOneOpenClientPerName | src/infrastructure/http_client.py:58-62 | in every reachable state each open client is the one its name maps to, so there is at most one per name (clients whose aclose raised aside) |
| HttpPool.SameClientWhileOpen | src/infrastructure/http_client.py:63-84 | two calls for one name, anything in between: both return an open client, and the same one exactly when the first is still open and cached; for a client whose aclose did not raise, exactly when it is still open |
| HttpPool.SameClientWithoutClose | src/infrastructure/http_client.py:63-84 | with no closing step in between the second call returns the very client of the first, a failed aclose or not |
| HttpPool.CloseLeavesNothingOpen | src/infrastructure/http_client.py:87-99 | when close_clients ends, every client ever built is closed or failed to close |
| HttpPool.BuildingUnderCloseLosesClient | src/infrastructure/http_client.py:93-99 | why the lock is held across the awaits: building during an aclose loses an open client |
| HttpPool.CallServesItsName | src/infrastructure/http_client.py:63-84 | a call that has to wait, whatever runs meanwhile: once it has the lock it returns an open client built for the very name it asked for, cached under that name, and disturbs no other |
| HttpPool.GetCanReturn | src/infrastructure/http_client.py:62-84 | no deadlock: in every state an idle coroutine can call get_client and get an open client, for whoever holds the lock can finish first |
| HttpPool.CloserCanFinish | src/infrastructure/http_client.py:93-100 | from any point of closing, the holder alone can close everything left on its list, clear the map and free the lock |
| HttpPool.CloseCanFinish | src/infrastructure/http_client.py:87-100 | close_clients can be called and can finish; then no client the map had is open |
| HttpPool.WhenCloseGoesOn | src/infrastructure/http_client.py:95-98 | an aclose that raises is passed over whether closed or not, one that returns exactly once its client is closed |
| HttpPool.CancelReleases | src/infrastructure/http_client.py:62-100 | a cancelled coroutine waits for nothing and holds no lock; clients are untouched |
| HttpPool.ClosedOutsideIsReplaced | src/infrastructure/http_client.py:63-84 | a client closed from outside is not served again: the next call builds a new one |
| HttpPool.Pool.GetClient | src/infrastructure/http_client.py:63-67 | keeps the invariant; what it returns is open and serves the name, and an open client of the name that has not failed to close is always the one returned; without one it waits for that name |
| HttpPool.Pool.GetClientLocked | src/infrastructure/http_client.py:67-84 | keeps the invariant; returns an open client of the name, the only one, and builds only if there was none |
| HttpPool.Pool.CloseClients | src/infrastructure/http_client.py:93-94 | keeps the invariant; the snapshot lists exactly the clients of the map, so every client to be closed |
| HttpPool.Pool.CloseNextClient | src/infrastructure/http_client.py:95-98 | keeps the invariant; one more client is closed or failed, and every open client left is still to come |
| HttpPool.Pool.FinishClose | src/infrastructure/http_client.py:99-100 | keeps the invariant; no client ever built is left open but those that failed to close, and no name hits |
| EventStream.ParseEvent | frontend/src/api/client.ts:149-158 | the line loop gives the last event name (else "message") and the joined data lines |
| EventStream.DispatchComplete | frontend/src/api/client.ts:144-159 | the inner loop ends, dispatches every complete event in order, and leaves the text after the last blank line |
| EventStream.StreamEvents | frontend/src/api/client.ts:132-160 | the read loop dispatches exactly the events of all text buffered so far, and its leftover has no blank line, whatever the chunks |
| EventStream.DrainAppend | frontend/src/api/client.ts:142-147 | draining a text and then its continuation is draining both at once |
| EventStream.SplitLossless | frontend/src/api/client.ts:145-147 | raw events, separators and leftover spell the buffered text: nothing is dropped |
| EventStream.ChunkIndependence | frontend/src/api/client.ts:134-160 | chunks give the same raw events and leftover as one chunk if and only if no cut falls between "\r" and "\n" |
| EventStream.SplitPairLosesEvent | frontend/src/api/client.ts:142 | a cut inside "\r\n" loses an event |
| EventStream.LineByLine | frontend/src/api/client.ts:149-157 | what each line adds: the last event line names the event, "message" without one; one space after the colon is no part of a value; data lines add up in order; other lines say nothing |
| EventStreamRoundTrip.RoundTrip | frontend/src/api/client.ts:144-159 | an event list written as event:/data: lines and read back is the same list if and only if no name breaks a line and no "\r\n" is written |
| EventStreamRoundTrip.RoundTripInAnyChunks | frontend/src/api/client.ts:134-160 | such a list arrives intact however the network cuts it |
| EventStreamRoundTrip.PlainTextIsEncodable | frontend/src/api/client.ts:149-158 | every name without line breaks with any "\r"-free data is such an event |
| EventStreamRoundTrip.ReadEvent | frontend/src/api/client.ts:149-158 | one written event, leading spaces and embedded newlines included, is read back as itself |
| EventStreamRoundTrip.WhatAnEventSays | frontend/src/api/client.ts:151-158 | a raw event is read as its newline-parted lines, its data values joined by newlines |
| Sessions.StepKeepsInv | whatsapp-bridge/src/sessions.js:92-198 | every step between two awaits keeps: armed timers are exactly the stored handles, sockets are their sessions', counters and delays match the log |
| Sessions.FireKeepsInv | whatsapp-bridge/src/sessions.js:328-332 | a fired timer's stale handle is forgotten by the stop its start begins with |
| Sessions.RunKeepsInv | whatsapp-bridge/src/sessions.js:92-435 | the invariant holds in every run of starts, stops, shutdowns, socket events, firings and failures |
| SessionRuns.NoTimerIsOrphaned | whatsapp-bridge/src/sessions.js:320-343 | in every reachable state the armed timers are exactly the handles stored, at most one per session |
| SessionRuns.SocketsStep | whatsapp-bridge/src/sessions.js:115 | only the end of a start puts a socket in place, and always a new one |
| SessionRuns.LostSocketIsSilent | whatsapp-bridge/src/sessions.js:133-140 | after a socket lost its place, its updates change nothing: no notification, counter, timer or pending call, ever |
| SessionRuns.OneStretch | whatsapp-bridge/src/sessions.js:115-168 | each socket is current for one contiguous stretch of every run |
| SessionRuns.WhatMayCome | whatsapp-bridge/src/sessions.js:92-174 | a session can be started, stopped and unlinked at any time; a working socket can break; a socket reports its close exactly when it no longer works |
| SessionRuns.WhenStopIsFinal | whatsapp-bridge/src/sessions.js:412-417 | a session stopped, keeping its credentials or unlinking, stays without socket and timer until started again if and only if no suspended call of it was about to revive it |
| SessionRuns.RunKeepsLogouts | whatsapp-bridge/src/sessions.js:412-431 | in every run a socket being logged out belongs to the session that unlinked it, is not its current one, and is logged out once |
| SessionRuns.WhenASocketLeaks | whatsapp-bridge/src/sessions.js:92-115 | a working socket that the Map or a logout() under way still held becomes unreachable exactly when a start finishes over it, a log-out clean-up deletes it, or the logout() of its unlinking fails |
| SessionRuns.NoSocketLeaks | whatsapp-bridge/src/sessions.js:92-198 | without such steps every working socket of a run is the current one of its session or being logged out |
| SessionRuns.FailedLogoutLeaks | whatsapp-bridge/src/sessions.js:422-430 | start, unlink, and a logout() that fails: the socket works on, and no stop can find it |
| SessionRuns.OverlappingStartsLeak | whatsapp-bridge/src/sessions.js:92-115 | two overlapping starts of one session lose a working socket |
| SessionRuns.ShutdownMissesTimers | whatsapp-bridge/src/sessions.js:433-435 | shutdown leaves armed exactly the timers of sessions without a socket |
| SessionRuns.BrokenSocketReconnects | whatsapp-bridge/src/sessions.js:151-173 | a current socket that breaks can report it, is told, and leaves one timer armed with the backoff of the reconnects since the last stop or open |
| SessionRuns.WhatIsTold | whatsapp-bridge/src/sessions.js:133-172 | the API is told of a QR, a link and a lost connection as they are handled, of the current socket only, and of a log-out once the credentials are cleared |
| SessionRuns.WhatIsSuspended | whatsapp-bridge/src/sessions.js:145-173 | a current socket's update suspends exactly: showing a QR, the clean-up after a log-out, the reconnect after any other close |
| SessionRuns.FailedTimerStart | whatsapp-bridge/src/sessions.js:328-331 | when a timer's start fails, "disconnected" is told and a retry waits for it; nothing else changes |
| SessionRuns.RetryArms | whatsapp-bridge/src/sessions.js:331 | the retry arms exactly one timer of the session, whatever happened meanwhile |
| SessionRuns.FailedReconnectRetries | whatsapp-bridge/src/sessions.js:326-334 | a timer fires and its start fails: the session has one timer again, due in 2 s, and no socket |
| SessionRuns.FailedQrGoesOn | whatsapp-bridge/src/sessions.js:144-151 | a QR that cannot be shown is told as "failed", and the connection is handled all the same |
| SessionRuns.OtherFailuresEndTheCall | whatsapp-bridge/src/sessions.js:92-174 | any other await that fails only ends its call |
| SessionRuns.BackoffValues | whatsapp-bridge/src/sessions.js:33-34 | delays are 2, 4, 8, 16, 32 and then 60 seconds |
| SessionRuns.BackoffShape | whatsapp-bridge/src/sessions.js:323 | delays lie within 2 s and 60 s, never fall, and stay at 60 s from the sixth |
| SessionRuns.CounterAndDelays | whatsapp-bridge/src/sessions.js:320-323 | in every run the counter is the reconnects since the last stop or open, and each delay is the backoff of that number |
| SessionRuns.DelaysGrowBetweenResets | whatsapp-bridge/src/sessions.js:318-323 | between two resets delays never shrink and the second is above 2 s |
| SessionRuns.WhenBackoffStaysAtBase | whatsapp-bridge/src/sessions.js:320-323 | in the log, all delays of a session are 2 s if and only if a stop or an open lies between any two reconnects |
| SessionRuns.WhenDelaysStayAtBase | whatsapp-bridge/src/sessions.js:93 | over whole runs, all delays of a session are 2 s if and only if a start, a stop or an open of it comes between any two of its reconnects |
| SessionRuns.OneReconnectPerStart | whatsapp-bridge/src/sessions.js:320-334 | in every run with at most one reconnect between consecutive starts of a session, every delay is 2 s |
| SessionManager.SessionManager.ClearReconnectTimer | whatsapp-bridge/src/sessions.js:337-343 | no handle and no armed timer of the session is left, not even of a timer just fired; other sessions keep theirs |
| SessionManager.SessionManager.SetReconnectTimer | whatsapp-bridge/src/sessions.js:320-335 | keeps the invariant; exactly one timer is armed for the session, others keep theirs, and the delay is the backoff of the reconnects since the last stop or open |
| SessionManager.SessionManager.StopSocket | whatsapp-bridge/src/sessions.js:412-423 | keeps the invariant; no socket, counter, handle or armed timer of the session is left and other sessions keep theirs; its socket no longer works, or, when unlinking, a logout() that may fail is to end it |
| SessionManager.SessionManager.StartSocket | whatsapp-bridge/src/sessions.js:92-95 | keeps the invariant; until it goes on after its awaits, nothing of the session is left |
| SessionManager.SessionManager.InstallSocket | whatsapp-bridge/src/sessions.js:98-115 | keeps the invariant; the new socket works and is the only current one of the session |
| SessionManager.SessionManager.FireTimer | whatsapp-bridge/src/sessions.js:328-329 | keeps the invariant; neither the fired timer nor its handle is left, nor anything else of the session |
| SessionManager.SessionManager.ConnectionUpdate | whatsapp-bridge/src/sessions.js:133-151 | keeps the invariant; a socket that lost its place changes nothing, and no update touches a socket or timer before its first await; an open leaves no reconnect counted |
| SessionManager.SessionManager.HandleConnection | whatsapp-bridge/src/sessions.js:153-174 | keeps the invariant; an open leaves no reconnect counted, a close only suspends the handler before its clean-up or reconnect |
| SessionManager.SessionManager.ResumeAfterAwait | whatsapp-bridge/src/sessions.js:158-173 | keeps the invariant; arms exactly one timer whether or not the session was stopped meanwhile, or drops whichever socket the session has by now, or ends the socket logged out |
| SessionManager.SessionManager.RejectAwait | whatsapp-bridge/src/sessions.js:326-334 | keeps the invariant; a timer's failed start is told and will be tried again, a QR not shown is told, anything else just ends; no socket or timer changes yet |
| SessionManager.SessionManager.StopEverything | whatsapp-bridge/src/sessions.js:433-435 | keeps the invariant; no socket is left, and exactly the sessions without a socket keep their timers |
| Metrics.DedupePreserveOrder | evals/metrics.py:31-43 | the loop computes the deduplicated list |
| Metrics.FirstsAreIncreasing | evals/metrics.py:39-42 | the first-occurrence positions, all of them, in increasing order |
| Metrics.DedupeKeepsFirsts | evals/metrics.py:31-43 | the result is exactly the first occurrence of each id, in order |
| Metrics.DedupeIsDistinct | evals/metrics.py:31-43 | no repeats, same ids |
| Metrics.ReciprocalRank | evals/metrics.py:72-78 | one over the rank of the first relevant distinct result, 0 if none |
| Metrics.HitsAgree | evals/metrics.py:59-69 | hits counted over set(relevant) are hits counted over ranked positions |
| Metrics.RecallPrecisionBalance | evals/metrics.py:54-69 | recall and precision are the number of ranks of the top k that hold a relevant id, over the relevant count and over the top length; 0 without either |
| Metrics.HitViews | evals/metrics.py:46-78 | hit@k is 1 or 0; hit@k = 1, recall@k > 0, precision@k > 0 and, for k >= 1, reciprocal rank >= 1/k say the same |
| Metrics.WhatTopKeeps | evals/metrics.py:50 | a slice [:k] keeps the ranks below k, or, for negative k, all but the last -k |
| Metrics.DcgBound | evals/metrics.py:91 | hits at distinct ranks gain at most what as many first ranks gain, with equality exactly when they are the first ranks |
| Metrics.NdcgBound | evals/metrics.py:81-94 | 0 <= nDCG@k <= 1 for every input and any positive strictly decreasing discount |
| Metrics.NdcgIsOne | evals/metrics.py:81-94 | nDCG@k = 1 if and only if the first min(number of relevant ids, k) distinct results are all there and relevant |
| Metrics.NdcgValue | evals/metrics.py:81-94 | nDCG@k is the sum of the discounts of the ranks up to k that hold a relevant id, over the sum of the first min(number of relevant ids, k) discounts; 0 if nothing is relevant or asked for |
| Metrics.NothingAsked | evals/metrics.py:92-94 | 0 for every k <= 0 |
| Metrics.NdcgOfOne | evals/metrics.py:81-94 | one relevant id at rank m <= k scores d(m)/d(1) |
| Metrics.MovingUpScoresMore | evals/metrics.py:81-94 | moving the only hit up raises the score |
| AuthStore.Store.Query | whatsapp-bridge/src/authStore.js:28-46 | returns exactly when an attempt succeeds after connection losses only; then the statement took effect as if once |
| AuthStore.Store.SetKeys | whatsapp-bridge/src/authStore.js:117-128 | whatever the interleaving of the writes' retry loops: the call returns exactly when every write did, the table is then what writing in order makes it unless two writes disagree on a row, and rows of no write never change |
| AuthStore.Store.GetKeys | whatsapp-bridge/src/authStore.js:93-116 | every schedule of parallel reads and deletes returns the values of the table at the start, and deletes exactly the damaged rows asked for |
| AuthStore.Store.LoadCreds | whatsapp-bridge/src/authStore.js:77-87 | credentials are an object: the stored one, or a fresh one with any damaged row deleted |
| AuthStore.WhenOrderDoesNotMatter | whatsapp-bridge/src/authStore.js:59-75 | parallel statements, each effective once or more in any order, have one outcome if and only if no two write a row differently |
| AuthStore.ReturnedWritesAreComplete | whatsapp-bridge/src/authStore.js:28-46 | however the retry loops of several statements interleave, when all have returned each took effect once to three times |
| AuthStore.SettledWrites | whatsapp-bridge/src/authStore.js:117-128 | so returned writes make the table that writing in order makes, and other rows stay even if some write threw |
| AuthStore.ParallelIsInOrder | whatsapp-bridge/src/authStore.js:117-128 | that outcome is the one of writing in order |
| AuthStore.GetIsAtomic | whatsapp-bridge/src/authStore.js:93-116 | whatever the interleaving, keys.get sees one table and removes only damaged rows |
| AuthStore.JoinedIsNotCreds | whatsapp-bridge/src/authStore.js:82-122 | no joined key is the creds key |
| AuthStore.WhenJoinedCollide | whatsapp-bridge/src/authStore.js:99 | two (type, id) pairs join to one key exactly when they are the same, or the longer type continues with a dash what the other's id begins with |
| AuthStore.WhatIsWritten | whatsapp-bridge/src/authStore.js:117-127 | truthy values are written, falsy ones deleted, under type-id |
| AuthStore.EachLoopAlone | whatsapp-bridge/src/authStore.js:28-46 | in every interleaving each retry loop is where its own attempts put it: three at most, back on the first success, thrown by any other error or the third loss; and its statement took effect as often as they say |
| AuthStore.WhatIsKept | whatsapp-bridge/src/authStore.js:93-116 | objects and arrays come back, those of app-state-sync-key as protobufs; other values are damaged rows |
| AuthStore.ReadsCanFinish | whatsapp-bridge/src/authStore.js:93-116 | a complete schedule of reads and deletes always exists |
| AuthStoreMap.CallRefines | whatsapp-bridge/src/authStore.js:92-137 | any completed call does to the table what it does to a plain map by (session, type, id) |
| AuthStoreMap.CallsCanReturn | whatsapp-bridge/src/authStore.js:92-137 | every call can return |
| AuthStoreMap.WhenStoreIsMap | whatsapp-bridge/src/authStore.js:122 | all calls refine the plain map if and only if no two pairs in use join to one key |
| AuthStoreMap.RunRefines | whatsapp-bridge/src/authStore.js:92-137 | after any run of calls each id reads as the last truthy object written, or nothing |
| AuthStoreMap.KeysLeaveCredsAlone | whatsapp-bridge/src/authStore.js:93-128 | keys.get and keys.set leave every creds row and every other session untouched |
| AuthStoreMap.JoinedCanCollide | whatsapp-bridge/src/authStore.js:122 | distinct pairs can share a row |
| Reservations.ReservationTable.Insert | migrations/versions/0025_scheduling_foundation.py:447-456 | an insert passes if and only if the range is proper and no live row of the resource meets it half-open |
| Reservations.ReservationTable.Reserve | src/infrastructure/persistence/scheduling_repositories.py:1019-1061 | all rows or none: succeeds if and only if every resource is free and none is asked for twice |
| Reservations.ReservationTable.PurgeExpiredHolds | src/infrastructure/persistence/scheduling_repositories.py:994-1017 | afterwards no expired hold of the tenant is live on the resources, every other row is as it was, and the guard holds |
| Reservations.ReservationTable.ReleaseHold | src/infrastructure/persistence/scheduling_repositories.py:1115-1126 | afterwards no live hold of the token is left, every other row is as it was, and the guard holds |
| Reservations.ReservationTable.ReleaseForAppointment | src/infrastructure/persistence/scheduling_repositories.py:1128-1146 | afterwards nothing of the appointment is live, every other row is as it was, and the guard holds |
| Reservations.ReservationTable.ConvertHold | src/infrastructure/persistence/scheduling_repositories.py:1089-1113 | every live hold of the token becomes a booking of the appointment in place and without expiry, every other row is as it was, and exactly the same time is free |
| Reservations.WhatIsReleased | src/infrastructure/persistence/scheduling_repositories.py:994-1172 | row by row, which rows each UPDATE releases, by tenant, resource, token, appointment, kind, liveness and expiry, and that all else of the row stays |
| Reservations.WhatIsConverted | src/infrastructure/persistence/scheduling_repositories.py:1089-1113 | row by row, a live hold of the token becomes a live booking of the appointment, without token or expiry; nothing else changes |
| Reservations.WhatIsClaimed | src/infrastructure/persistence/scheduling_repositories.py:1039-1052 | a claim makes one live row per resource, in order, with all that was claimed |
| Reservations.WhenAllAreReservable | src/infrastructure/persistence/scheduling_repositories.py:1019-1061 | several resources are reservable exactly when each is and none is asked for twice |
| ReservationRuns.RunIsGuarded | migrations/versions/0025_scheduling_foundation.py:447-456 | after every run of reserving, purging, releasing, sweeping and converting no two live rows of a resource overlap; if bookings are claimed without expiry, as every caller does, they have none |
| ReservationRuns.OneStatementMore | src/infrastructure/persistence/scheduling_repositories.py:994-1172 | a run is its statements in order: a claim adds its rows if all of it can be reserved and else nothing, each update is the repository's |
| ReservationRuns.NoDoubleBooking | migrations/versions/0025_scheduling_foundation.py:445-456 | corollary of RunIsGuarded: in every run two rows of one resource that share an instant are never both live |
| ReservationRuns.ReservedIsTaken | migrations/versions/0025_scheduling_foundation.py:447-456 | live reserved time inside a window is the number of taken instants |
| ReservationRuns.CalendarNeverOverflows | migrations/versions/0025_scheduling_foundation.py:447-456 | so it never exceeds the window's length, in any run |
| ReservationRuns.WhenWindowIsAdmitted | migrations/versions/0025_scheduling_foundation.py:447-456 | a window is admitted if and only if the live reserved time of the resource inside it is zero |
| ReservationRuns.BackToBackIsAdmitted | migrations/versions/0025_scheduling_foundation.py:457-458 | corollary: a window touching live rows only at its ends is admitted |
| ReservationRuns.ReleasedSlotIsFree | src/infrastructure/persistence/scheduling_repositories.py:1128-1136 | corollary: exactly the time a released row held can be reserved again |
| ReservationRuns.CancelledAppointmentCanBeRebooked | src/infrastructure/persistence/scheduling_repositories.py:1128-1146 | every row of a cancelled appointment is reservable again |
| ReservationRuns.ConversionOpensNothing | src/infrastructure/persistence/scheduling_repositories.py:1092-1097 | converting a hold changes nothing about what can be reserved |
| ReservationRuns.WhenEngineAndConstraintDiffer | migrations/versions/0025_scheduling_foundation.py:457-458 | the constraint and Interval.overlaps differ exactly on an empty range strictly inside the other |
| Availability.Merge | src/domain/scheduling/availability.py:186-199 | the maximal stretches of the union: same instants, sorted, with gaps |
| Availability.Intersect | src/domain/scheduling/availability.py:202-217 | two pointers give exactly the instants in both, as separated stretches |
| Availability.AnyOverlaps | src/domain/scheduling/availability.py:239-245 | some interval overlaps the block if and only if they share an instant |
| Availability.InsideOneStretch | src/domain/scheduling/availability.py:235-238 | containment in one window is coverage at every instant |
| Availability.ResourceFree | src/domain/scheduling/availability.py:226-245 | true if and only if at every instant of the block branch and resource are open, and nothing blocks or occupies it |
| Slots.PickResources | src/domain/scheduling/availability.py:248-282 | the first usable candidate of each role in turn, a preference narrowing its own role |
| Slots.PickedServes | src/domain/scheduling/availability.py:248-282 | each role is served by one of its own candidates, usable for the whole block, no resource twice |
| Slots.GridNext | src/domain/scheduling/availability.py:358-363 | grid points are a step apart, anchored at the window's start |
| Slots.OfferWindow | src/domain/scheduling/availability.py:357-387 | one opening window: only genuine starts, in order, and all of them up to the limit |
| Slots.ComputeSlots | src/domain/scheduling/availability.py:285-389 | every slot listed is genuine, in time order, and every start the rules allow is listed unless the limit ended the list before it |
| Slots.WhenStartIsOfferable | src/domain/scheduling/availability.py:312-377 | a start is offered exactly within range, minimum notice, horizon and 62 days, on the grid of its window, with the buffered block clear of closures and every role filled |
| Slots.WhatIsListed | src/domain/scheduling/availability.py:312-387 | every slot listed keeps notice, range and horizon, has the service's length, and each role is served by an active candidate of its own, open, unblocked and not busy for the buffered block |
| Slots.NothingIsMissing | src/domain/scheduling/availability.py:351-387 | every start within those bounds is listed, unless the limit came first |
| Booking.BusySpansAre | src/infrastructure/persistence/scheduling_repositories.py:954-992 | busy time is exactly the unexpired live rows meeting the query window |
| Booking.WhenARowIsBusy | src/infrastructure/persistence/scheduling_repositories.py:967-983 | busy rows: of the tenant and resource, not released, meeting the window, not timed out |
| Booking.WhenSearchCanBeTrusted | src/infrastructure/persistence/scheduling_repositories.py:969-986 | what the engine sees as free is always reservable if and only if the query window contains the block, buffers included |
| Booking.WhenResolvingCanBeTrusted | src/application/use_cases/availability.py:287-292 | for resolve_slot that is exactly: neither buffer exceeds a minute |
| Booking.WhenBlocksCanBeTrusted | src/infrastructure/persistence/scheduling_repositories.py:615-640 | a block that the loaded blocked periods leave clear is clear of all of them, whatever they are, if and only if the query window contains the block |
| Booking.WhenResolvingSeesBlocks | src/application/use_cases/availability.py:287-292 | for resolve_slot that is exactly: neither buffer exceeds a minute |
| Booking.ClosureInBufferIsMissed | src/application/use_cases/availability.py:287-292 | half an hour with ten minutes of clean-up: a closure 35 minutes after the start lies in the reserved time and is not loaded |
| Booking.PickedIsUnblocked | src/application/use_cases/availability.py:211-213 | when the query window contains the block, no blocked period of a picked resource meets it |
| Booking.PickedIsReservable | src/application/use_cases/availability.py:215-231 | when the query window contains the block, every picked resource is reservable after the purge |
| Booking.LimitIsNeverReached | src/application/use_cases/availability.py:293-305 | the limit of 64 never hides a slot from resolve_slot |
| Booking.ResolveSlot | src/application/use_cases/availability.py:269-312 | finds the slot if and only if the engine could offer that start time |
| Booking.HoldSlot | src/application/use_cases/availability.py:189-249 | a hold outcome says exactly what was offered on the blocked periods and busy time loaded and what the table holds; with buffers of a minute or less it is never "just taken", and nothing in the world blocks a held slot; a held slot serves every required role exactly when each keeps a candidate after loading, and everyone held is an active candidate not pinned to another branch |
| Booking.WhenEveryRoleIsServed | src/application/use_cases/availability.py:76-91 | what the engine picks serves every required role if and only if every required role keeps an active candidate of this branch |
| Booking.WhatARoleKeeps | src/application/use_cases/availability.py:82-91 | a role keeps, in order, exactly its active candidates not pinned to another branch |
| Booking.PickedWorksHere | src/application/use_cases/availability.py:82-91 | whoever is picked after loading is an active candidate not pinned to another branch |
| Booking.InactiveRoomVanishes | src/application/use_cases/availability.py:82-91 | a doctor and a room switched off: the room's role is not there after loading |
| OfferCarries.PickedIffFilled | src/domain/scheduling/availability.py:254-259 | when no resource fills two roles, the greedy pick succeeds if and only if every role has a usable candidate |
| SearchWorld.OfferedSomewhere | src/domain/scheduling/availability.py:351-372 | being offered, as the lemmas below use it, is being offered out of one of the engine's merged windows |
| OfferCarries.GreedyMissesAPick | src/domain/scheduling/availability.py:256-274 | a resource in two roles, first in the first: the greedy pick fails, though the other candidate of the first role would leave it to the second |
| OfferCarries.PickedFollows | src/domain/scheduling/availability.py:261-280 | greedy picking is monotone, shared resources or not: where every candidate usable in one request is usable in the other, a pick that succeeds there succeeds here, and takes none usable there that was not taken there |
| OfferCarries.WhoIsValidated | src/domain/scheduling/entities.py:132-234 | services of one minute to a day with any buffers |
| SearchAndHold.WhenOfferIsFound | src/domain/scheduling/availability.py:323-347 | rules standing date by date, with resources in any given zones: what the search offers, resolve_slot finds on the same world and table, whatever they are, if and only if the range reaches a minute past the appointment wherever the service has a buffer, and no zone has the block on one of its dates that the range touches and the appointment's own window does not (the latter if the block fits one date of the branch), or the search can never offer it |
| SearchAndHold.WhenOfferIsFoundAtHome | src/domain/scheduling/availability.py:342-347 | with no zone but the branch's, the range alone decides |
| SearchAndHold.TokyoMondayIsLost | src/domain/scheduling/availability.py:134-150 | a practitioner in Tokyo with a Monday rule, a branch in UTC: Sunday 16:00 is offered and does not resolve |
| SearchAndHold.HeldWithoutARoom | src/application/use_cases/availability.py:82-91 | a doctor and a room switched off, the branch open all day: 10:00 is offered with the doctor alone, who can be reserved, so it is held, with nobody in the role of the room |
| SearchAndHold.ClosingTimeIsLost | src/application/use_cases/availability.py:287-292 | a search until 16:30, when a closure of the branch begins: 16:00 with ten minutes of clean-up is offered and does not resolve |
| CanonicalNumbers.WhenMigrationSucceeds | migrations/versions/0027_canonical_contact_numbers.py:50-78 | in any row order, the update succeeds if and only if no two chosen rows of a channel share a canonical form; it then rewrites all chosen rows and only them |
| CanonicalNumbers.StaysUnique | migrations/versions/0009_whatsapp.py:52 | the result is unique on (channel, phone) |
| CanonicalNumbers.MigrationKeepsRows | migrations/versions/0027_canonical_contact_numbers.py:50-78 | every row, its channel and its digits stay, and a second run finds nothing to change |
| CanonicalNumbers.WhatStays | migrations/versions/0027_canonical_contact_numbers.py:64-73 | what stays non-canonical is no number or a duplicate of a holder |
| CanonicalNumbers.TwoSpellingsStopTheMigration | migrations/versions/0027_canonical_contact_numbers.py:67-73 | two spellings nobody holds canonically fail the whole statement |
| CanonicalNumbers.SpacedAndDashed | migrations/versions/0027_canonical_contact_numbers.py:55-58 | such spellings exist |
| CanonicalNumbers.WhatDigitsKeeps | migrations/versions/0027_canonical_contact_numbers.py:55 | the digits 0 to 9 stay, in order, and nothing else does |
| CanonicalNumbers.WhenRowIsChosen | migrations/versions/0027_canonical_contact_numbers.py:50-73 | a row is rewritten, to a plus and its digits, exactly when those are 6 to 15, it is not so spelled and no row of its channel is |
| History.HistoryAgreesWithLive | whatsapp-bridge/src/history.js:31-40 | history derives a number exactly from an @s.whatsapp.net address of 6 to 16 digits, "+" and those digits, and the live path files the chat under that very number |
| History.WhenOnlyLiveFiles | whatsapp-bridge/src/sessions.js:200-216 | the live path files what history skips exactly when the address is present but no such number |
| History.WhenAPhoneIsDerived | whatsapp-bridge/src/history.js:31-40 | a number is derived exactly from an address, the chat's or the one behind a LID, of 6 to 16 digits up to a colon or at sign, ending in @s.whatsapp.net |
| History.HowLiveSpells | whatsapp-bridge/src/sessions.js:61-65 | the live path puts a plus before the bare address unless one is there |
| History.WhatTrimKeeps | whatsapp-bridge/src/history.js:53 | trimming takes the white space of ECMAScript from both ends and nothing else |
| History.WhichNameCounts | whatsapp-bridge/src/history.js:53 | the saved name, else the one the contact gives, else the verified one; only the first counts as saved |
| History.WhoIsSighted | whatsapp-bridge/src/history.js:48-57 | contacts with a number and a name count, in their order |
| History.ToContactRows | whatsapp-bridge/src/history.js:48-60 | one row per phone in order of first usable appearance, named by the last saved name, else by the first |
| History.AddKeepsRows | whatsapp-bridge/src/history.js:57 | setting a Map entry keeps place and naming right |
| History.FirstIsFirst | whatsapp-bridge/src/history.js:57 | no sighting of a phone lies before its first |
| History.LastSavedIsLast | whatsapp-bridge/src/history.js:55-57 | no saved name of a phone lies after its last |
| History.ToMessageRows | whatsapp-bridge/src/history.js:70-100 | each message kept gives, in order, the row the live path would report, with the time history reads |
| History.WhatIsImported | whatsapp-bridge/src/history.js:70-79 | messages of a direct chat with text or an attachment are kept, in order |
| History.WhenLiveReports | whatsapp-bridge/src/sessions.js:200-236 | the live path reports a message exactly when it can name the chat and there is something to show |
| History.WhenRowsAgree | whatsapp-bridge/src/history.js:70-100 | that row is the live one if and only if both read the same time: a number not negative, or a Long that fits its low word; all but the time always agrees |
| History.StampAfter2038 | whatsapp-bridge/src/history.js:80-82 | from January 2038 a Long is read as a negative time |
| History.Chunk | whatsapp-bridge/src/history.js:102-106 | batches concatenate to the list, all full but a nonempty last |
| History.SendContacts | whatsapp-bridge/src/sessions.js:294-296 | contact batches sent are a prefix of the rows, all of them unless the callback throws |
| History.SendMessages | whatsapp-bridge/src/sessions.js:297-299 | likewise for messages, after the contacts |
| History.ImportHistory | whatsapp-bridge/src/sessions.js:282-304 | without a throw the batches are exactly all rows; with one, a prefix; contacts first; sizes 1 to 400 and 1 to 200 |
| FlowSections.MovedAt | frontend/src/components/FlowSectionsEditor.tsx:76-93 | the section at i is found at its shifted position |
| FlowSections.ShiftBack | frontend/src/components/FlowSectionsEditor.tsx:86-91 | moving back undoes the shift, so it is a bijection |
| FlowSections.MovePermutes | frontend/src/components/FlowSectionsEditor.tsx:78-80 | a move permutes the list |
| FlowSections.MoveIsUndone | frontend/src/components/FlowSectionsEditor.tsx:76-93 | moving back restores sections and expansion |
| FlowSections.ToggleFlipsOne | frontend/src/components/FlowSectionsEditor.tsx:64-70 | one position opens or closes, the rest stay |
| FlowSections.PatchChangesOne | frontend/src/components/FlowSectionsEditor.tsx:72-74 | one field of one section changes |
| FlowSections.RemoveDropsOne | frontend/src/components/FlowSectionsEditor.tsx:95-98 | the gap closes, every row closes |
| FlowSections.AddAppendsOne | frontend/src/components/FlowSectionsEditor.tsx:100-103 | a section "New section", enabled and empty, comes last and open |
| FlowSections.WhenExpansionStaysInRange | frontend/src/components/FlowSectionsEditor.tsx:64-103 | over any run expanded positions stay in range if and only if no reset hands over too short a list |
| FlowSections.StepShows | frontend/src/components/FlowSectionsEditor.tsx:64-103 | each control shows what an editor that tracks rows by identity shows, if and only if it is no reset over a kept expanded position |
| FlowSections.WhenPositionsFollowRows | frontend/src/components/FlowSectionsEditor.tsx:82-94 | so over whole runs: moves, toggles, edits, removals and additions keep exactly the same sections open |
| FlowSections.ResetReopens | frontend/src/components/assistant/AssistantDetailsTab.tsx:293-299 | a reset leaves the new section at an open position open |
| FlowSections.FlowSectionsEditor.MoveSection | frontend/src/components/FlowSectionsEditor.tsx:76-93 | the same rows, each as open or closed as it was, with the moved one at its new place; positions and rows stay in step |
| FlowSections.FlowSectionsEditor.Shifted | frontend/src/components/FlowSectionsEditor.tsx:83-93 | the updater's loop gives the shifted set, in whatever order |
| FlowSections.FlowSectionsEditor.ToggleExpanded | frontend/src/components/FlowSectionsEditor.tsx:64-70 | opens or closes the one row and no other; positions and rows stay in step |
| FlowSections.FlowSectionsEditor.PatchSection | frontend/src/components/FlowSectionsEditor.tsx:72-74 | one row changes in place, all stay as open or closed as they were; positions and rows stay in step |
| FlowSections.FlowSectionsEditor.RemoveSection | frontend/src/components/FlowSectionsEditor.tsx:95-98 | one row goes and all rows close; positions and rows stay in step |
| FlowSections.FlowSectionsEditor.AddSection | frontend/src/components/FlowSectionsEditor.tsx:100-103 | a row never seen before comes last and open, the others as they were; positions and rows stay in step |
| VoiceCallRuns.StepKeepsInv | frontend/src/hooks/useVoiceCall.ts:133-264 | every handler keeps: the streak is the nudges since the last reset, the clock its last restart, each nudge was due |
| VoiceCallRuns.RunClimbsTheLadder | frontend/src/hooks/useVoiceCall.ts:54-65 | in every run, with any barge-ins, stale renders and stray callbacks: at most MAX_CHECK_INS - 1 check-ins between resets, closings only after them, each 45 s after the latest restart |
| VoiceCallRuns.WhenSilenceIsSafe | frontend/src/hooks/useVoiceCall.ts:166-181 | in any state a call can be in, a silent turn is sure to keep nudges 45 s apart if and only if the handler does not still see a listening call right after a nudge |
| VoiceCallRuns.WhenSilenceIsAlwaysSafe | frontend/src/hooks/useVoiceCall.ts:166-181 | over any run with a rising clock, silent turns are safe throughout if and only if no state on the way is of that kind |
| VoiceCallRuns.WhenNudgesAreSpaced | frontend/src/hooks/useVoiceCall.ts:166-193 | over any run with a rising clock, nudges are 45 s apart if and only if no silent turn meets such a state too soon |
| VoiceCallRuns.NudgesAreSpaced | frontend/src/hooks/useVoiceCall.ts:166-193 | when silent turns meet a rendered state and the clock rises, any two nudges of a run are at least 45 s apart |
| VoiceCallRuns.StaleRenderClosesAtOnce | frontend/src/hooks/useVoiceCall.ts:88-89 | two silent turns before the next render: check-in and closing at the same instant |
| VoiceCallRuns.RushedCallCloses | frontend/src/hooks/useVoiceCall.ts:88-89 | such a call is reached from the start: greeted, silent for 45 s, then two silent turns before the next render, at whatever times they come (VoiceLoop.CutOffCallCloses has them come from two recognisers) |
| VoiceCallRuns.WhenEndingIsFinal | frontend/src/hooks/useVoiceCall.ts:246-254 | hanging up is final, until a start or tap, if and only if no session is being created, no utterance that would resume is cut off where recognition exists, and no exchange but the last was open |
| VoiceCallRuns.HowACallBegins | frontend/src/hooks/useVoiceCall.ts:217-244 | starting shows that it connects; a session created greets, one that fails leaves the call idle |
| VoiceCallRuns.HowAnAnswerBegins | frontend/src/hooks/useVoiceCall.ts:195-216 | anything heard in a call with a session that does not think opens one answer, which hanging up would cut |
| VoiceCallRuns.HowAReplyEnds | frontend/src/hooks/useVoiceCall.ts:133-150 | a reply with words is spoken, and then the call listens; without recognition it is idle |
| VoiceCallRuns.HowACallEnds | frontend/src/hooks/useVoiceCall.ts:152-164 | the last answer, never a greeting, ends the call: at once, or when it has been spoken |
| VoiceCallRuns.HowSilenceEndsACall | frontend/src/hooks/useVoiceCall.ts:181-193 | the second nudge, 45 s on, is the closing, after which the call has ended |
| VoiceCallHook.VoiceCallHook.OnSilence | frontend/src/hooks/useVoiceCall.ts:166-193 | keeps the ladder; nothing is said within 45 s of the last restart, and the closing comes only after every check-in and ends the listening |
| VoiceCallHook.VoiceCallHook.Resume | frontend/src/hooks/useVoiceCall.ts:133-141 | keeps the ladder; restarts the clock, clears no check-in, and leaves a state in which silence is safe |
| VoiceCallHook.VoiceCallHook.ReplyDone | frontend/src/hooks/useVoiceCall.ts:143-150 | keeps the ladder; no reply eats thinking time: the clock has restarted, or an utterance is pending whose end restarts it |
| VoiceCallHook.VoiceCallHook.Finish | frontend/src/hooks/useVoiceCall.ts:152-164 | keeps the ladder; the call is over, or will be when its last words are spoken |
| VoiceCallHook.VoiceCallHook.OnTranscript | frontend/src/hooks/useVoiceCall.ts:195-215 | keeps the ladder; anything heard in a call that is not thinking clears it and opens exactly one new exchange, anything else changes nothing |
| VoiceCallHook.VoiceCallHook.Start | frontend/src/hooks/useVoiceCall.ts:217-224 | keeps the ladder, cleared; one more session is awaited and may be created or fail |
| VoiceCallHook.VoiceCallHook.SessionCreated | frontend/src/hooks/useVoiceCall.ts:224-243 | keeps the ladder as it was; a session created opens exactly one exchange, the one endCall would now cut |
| VoiceCallHook.VoiceCallHook.End | frontend/src/hooks/useVoiceCall.ts:246-254 | keeps the ladder, cleared; the call stays idle if and only if nothing is outstanding |
| VoiceCallHook.VoiceCallHook.OnOrbTap | frontend/src/hooks/useVoiceCall.ts:256-264 | keeps the ladder; a barge-in restarts the clock and clears nothing, a tap on an idle call clears it, any other tap changes nothing |
| VoiceMic.WhatIsRendered | frontend/src/hooks/useVoice.ts:154-211 | until the next recogniser starts, the last render shows a listening microphone exactly when no error, end or stop came before some render |
| VoiceMic.WhenAShortSilenceRearms | frontend/src/hooks/useVoiceCall.ts:174-177 | a short silent turn leaves a new recogniser running if and only if, since its own recogniser started, an error, another turn's end or a stop came before some render |
| VoiceMic.WhenDeafIsFinal | frontend/src/hooks/useVoiceCall.ts:133-150 | with no recogniser running, none will run until somebody taps or types if and only if every callback outstanding was made by a render that was listening |
| VoiceMic.WhenATurnEndsTheListening | frontend/src/hooks/useVoiceCall.ts:166-210 | a turn that only a render has come before ends the listening, answered or not: its own callback cannot listen again |
| VoiceMic.OneAnswerThenDeaf | frontend/src/hooks/useVoiceCall.ts:195-216 | greeting, one spoken answer: from then on the microphone stays off |
| VoiceLoop.RunKeepsLinked | frontend/src/hooks/useVoiceCall.ts:101-269 | in every run of call and microphone together, the callbacks outstanding are the same for both and a listening microphone has a recogniser |
| VoiceLoop.DueIsEnabled | frontend/src/hooks/useVoiceCall.ts:101-269 | so whatever comes when it is due finds call and microphone ready: joining them rules nothing out |
| VoiceLoop.RunIsCallRun | frontend/src/hooks/useVoiceCall.ts:133-269 | what the call does in such a run is a run of VoiceCall |
| VoiceLoop.RunIsMicRun | frontend/src/hooks/useVoice.ts:154-217 | what the microphone does in such a run is a run of VoiceMic |
| VoiceLoop.HowARecogniserFails | frontend/src/hooks/useVoice.ts:194-198 | a recogniser that fails hushes the microphone; its turn still has to end |
| VoiceLoop.HowASilentTurnEnds | frontend/src/hooks/useVoiceCall.ts:166-193 | a silent turn does nothing to a call that does not show that it listens; within 45 s it starts a recogniser unless the render was listening; then it nudges |
| VoiceLoop.WhenSilenceMayRush | frontend/src/hooks/useVoiceCall.ts:166-193 | some silent turn would nudge too soon if and only if the state is rushed and a recogniser still runs |
| VoiceLoop.OneRecogniserSpaces | frontend/src/hooks/useVoiceCall.ts:166-193 | in every run with a rising clock, whenever renders come: while no two recognisers run at once, nudges are 45 s apart |
| VoiceLoop.CutOffCallCloses | frontend/src/hooks/useVoiceCall.ts:256-264 | a tap cuts the greeting off, its callback starts a second recogniser, and when both are dropped after 45 s the call checks in and closes at the same instant |
| VoiceLoop.WhenOnlyTypingHelps | frontend/src/hooks/useVoiceCall.ts:133-150 | a call that shows that it listens while no recogniser runs stays so through any taps if and only if no session is being created, no closing is being spoken, and every callback outstanding will only listen again, from a render that was listening |
| VoiceLoop.OneAnswerThenOnlyTyping | frontend/src/hooks/useVoiceCall.ts:195-216 | greeting, one spoken answer, its reply spoken: the call shows that it listens and hears nothing, whatever is tapped, until somebody types, hangs up or starts again |
| AvatarHash.TintFor | frontend/src/components/ConversationThread.tsx:77-81 | the tint is picked by the signed 32-bit residue of the whole base-31 polynomial |
| AvatarHash.EmojiFor | frontend/src/components/ConversationThread.tsx:104-108 | likewise base 33, with its own palette |
| AvatarHash.HashStep | frontend/src/components/ConversationThread.tsx:79 | wrapping at every step is wrapping once at the end |
| AvatarHash.HornerStep | frontend/src/components/ConversationThread.tsx:79 | the loop step extends the polynomial, a sum of units times powers |
| AvatarHash.ShortHashes | frontend/src/components/ConversationThread.tsx:79 | the hash of two units is the first times 31, or 33, plus the second |
| AvatarHash.StepIsExact | frontend/src/components/ConversationThread.tsx:79 | every value before a wrap is below 2^53 in magnitude, so doubles hold it exactly |

## Left out

- StreamEvents: takes decoded text; UTF-8 decoding, fetch, aborts and exceptions thrown by the event callback are not modelled, and text after the last blank line is never dispatched, as in the source.
- RoundTrip: the writer is the one section 9.2.5 describes; the server's own writer is not part of this model.
- AtMostOneOpenClientPerName: clients whose aclose raised are set aside, because the source drops them from the map open or not; httpx's own connections are not modelled.
- NdcgBound: over reals, with any positive strictly decreasing discount for 1/log2(rank + 1); floating-point rounding and log2 itself are not modelled.
- WhenBackoffStaysAtBase: about one log; WhenDelaysStayAtBase and OneReconnectPerStart are its forms over runs.
- NudgesAreSpaced: the everyday sufficient condition; the exact ones are WhenSilenceIsSafe and WhenNudgesAreSpaced.
- WhenStopIsFinal: the clearing of credentials that ends an unlinking stop touches no Map and is not a separate step; a logout() that returns is taken to have ended its socket, and one that fails not to have.
- Sessions: sendText, media upload, address resolution, QR rendering and the wire protocol are calls into a library that change none of the modelled state.
- Query: the pause between attempts is not modelled, and an attempt that lost its connection is taken to have had its effect, or not, before the next attempt.
- SetKeys: the attempts' fates are the environment's choice, and the call ends when every retry loop has; what Promise.all reports earlier is not modelled.
- RunRefines: for calls that complete and do not overlap each other; the serialisation of values is assumed to round-trip, and values are seen up to typeof and truthiness.
- ToMessageRows: times are whole seconds, and the ISO spelling history gives them is not modelled; a missing JavaScript string is the empty string, and an uploaded attachment's storage key is left out of the live row.
- ImportHistory: an absent sync callback or an import without any row sends nothing and is not a separate case.
- Reserve: runs alone on the table; the waiting and retrying of concurrent transactions is PostgreSQL's, which admits one of two clashing inserts.
- HoldSlot: one transaction alone on the table, from the query to the insert, so a conflict comes only from what the query did not show.
- PurgeExpiredHolds: an UPDATE is a loop over the rows here, as are ReleaseHold, ReleaseForAppointment and ConvertHold; the number of rows each reports is left out.
- ComputeSlots: weekly rules enter as instants. Which dates a range touches, in which zone, is modelled in SearchWorld, what the queries load in Booking; the zone database's arithmetic is not part of this model.
- WhenOfferIsFound: for the 24-hour limit on a service's duration. A zone is any calendar whose dates never go back, and a rule's opening time begins and ends on its date, as local times of day do.
- MoveSection: the position moved from exists, as the rendered rows guarantee; a drag begun before the list was replaced is not modelled.
- RunClimbsTheLadder: the choice among the check-in lines, the captions and the recogniser are left out here (VoiceMic and VoiceLoop have them); silent turns, transcripts and callbacks may arrive at any time.
- WhenEndingIsFinal: over runs in which a silent turn that comes 45 seconds or more after the last restart of the clock meets a rendered state; the abort function is taken to silence its exchange, and a cancelled utterance to report through its callback, as the Web Speech API does; unmounting is not modelled.
- CutOffCallCloses: a recogniser's turn may end at any time; the timer that stops a quiet one after 5 seconds is not modelled.
- WhenAShortSilenceRearms: for updates that a later render shows, as React 18 batches them; a recogniser whose start() throws is not modelled.
- TintFor: gives the index into the palette; the nine tints and twenty-four faces themselves are not modelled.
- Booking, rescheduling and cancelling appointments beyond their reservation rows, campaigns, billing, the language-model calls, and all rendering: they would add only easy members here.
