# EasyAsr recognition engine, modelled in Dafny

EasyAsr wraps Android's speech recognizer for an application. An **engine manager** (`Asr`)
keeps the selected engine id, the recognition language (a missing one falls back to the default
locale tag) and the event listener, and builds, reuses or disposes of the engine. The one engine,
**Google Free** (`GoogleFreeAsr`), is a single-threaded controller with four states: UNDEFINED,
IDLE, REQUESTED and LISTENING. It does three things:

- takes start and stop commands, with a 1500 ms minimum interval between accepted starts;
- drives the platform recognizer and turns its callbacks into events for the listener:
  started, partial result, final result, cancelled, error, initialised and language list;
- guards a request with three delayed tasks:
  - a 3000 ms stuck-request watchdog;
  - a 3000 ms no-further-results watchdog, which accepts the current transcript;
  - a 900 ms automatic unmute after the stream is muted to hide the recognizer's beeps.

The files:

- `asr_types.dfy`: engine states, engine ids and constants, listener events and recognizer calls.
- `matches.dfy`: the list operations on recognizer output. This covers joining partial matches,
  picking the first final match, and removing the excluded tag "mk-MK" from the language list.
- `session_spec.dfy`: the engine as a value (`Session`). It has one function per command,
  callback and timer firing, and the invariant `Inv`: a session that is not UNDEFINED has a
  recognizer, and the request fields, watchdogs and muting agree.
  - Delayed tasks are due times. A timer firing is an input that may occur once its time has come,
    and its guard is checked when it fires.
  - Stuck-request watchdogs form a list, because each accepted start posts one and only some
    paths remove them.
  - The listener's events and the recognizer calls are logs (`delivered`, `calls`).
- `session_traces.dfy`: runs of arbitrary inputs (`Step`, `Run`) and what holds across them.
  - The invariant holds in every reachable session.
  - A second start within 1500 ms is ignored.
  - At most one final result is acted on per request.
  - The watchdogs cancel stuck requests and accept silent transcripts.
  - Muting is always followed by an unmute.
- `session_findings.dfy`: the start request exactly as written, and the discrepancy described
  under Findings.
- `google_free_asr.dfy`: the engine as a class whose fields are updated in place. Each method is
  proved to have exactly the effect of its `SessionSpec` function. Every command, callback and
  timer method also keeps `Inv`. The two inner steps `MuteStream` and `Accept` are proved against
  their functions only, because the invariant does not hold across them on their own.
- `asr_manager.dfy`: the manager.
  - The pure helpers: engine names, the available engines, language normalisation and the
    construct decision.
  - The `Asr` class, whose methods are proved against the engine's specification.

Time is a parameter (`now`, in milliseconds). Whether recognition is available on the device,
whether an audio manager exists, and the default locale tag are parameters too.

Behaviour the model keeps as the code has it:

- A start is accepted from UNDEFINED as well as IDLE.
- `onReadyForSpeech` acts in every state.
- Unmuting does not cancel the pending automatic unmute.
- A failed rebuild keeps the old recognizer.
- A successful rebuild does not set IDLE.
- Changing the recognition language does not update the stored construction language, which is
  what a later self-rebuild uses.
- A no-match error (code 7) returns before it clears the watchdogs. A stale watchdog can therefore
  cancel the next request early (`SessionTraces.StaleWatchdogCancelsLaterRequest`).
- A stop while a request is still REQUESTED does not remove that request's stuck-request watchdog
  either (GoogleFreeAsr.java:291-323). It has the same effect on the next request, without any
  error from the recognizer (`SessionTraces.StaleWatchdogAfterStop`).
- The recognizer intent is not modelled.
  - `rebuild` sets the intent right after it creates the recognizer (GoogleFreeAsr.java:201-212).
    So a recognizer never exists without an intent.
  - `disposeEngine` clears the recognizer and leaves the intent set.
  - The test at GoogleFreeAsr.java:249 therefore rebuilds exactly when no recognizer exists,
    which is what the model checks.
- `onError` sets IDLE and keeps `currentText` (GoogleFreeAsr.java:556-588). A non-empty
  transcript can therefore outlive LISTENING. `SessionSpec.OnError` keeps `currentText`, and `Inv`
  does not claim otherwise.

## Model

| member | source | states |
|---|---|---|
| Matches.Concat | AsrEngine/src/main/java/com/mls/engineAsr/asr/GoogleFree/GoogleFreeAsr.java:650 | The joined partial transcript is as long as all partial matches together (they are joined with an empty separator). |
| Matches.ConcatEmpty | AsrEngine/src/main/java/com/mls/engineAsr/asr/GoogleFree/GoogleFreeAsr.java:650 | The joined transcript is empty exactly when every partial match is empty. `SessionTraces.EmptyMatchesStopCancels` uses this to show that a stop after such a partial delivers a cancellation. |
| Matches.ConcatAppend | AsrEngine/src/main/java/com/mls/engineAsr/asr/GoogleFree/GoogleFreeAsr.java:650 | Joining distributes over concatenation of match lists; PartialExtendsTranscript uses it for partial results that grow one match at a time. |
| Matches.FirstOrEmpty | AsrEngine/src/main/java/com/mls/engineAsr/asr/GoogleFree/GoogleFreeAsr.java:617-622 | The final text is the first match when the list is present and non-empty, and "" when it is missing or empty. |
| Matches.RemoveFirst | AsrEngine/src/main/java/com/mls/engineAsr/asr/GoogleFree/GoogleFreeAsr.java:409-413 | Removing "mk-MK" leaves a list without that tag unchanged and otherwise shortens it by exactly one. |
| Matches.FirstIndex | AsrEngine/src/main/java/com/mls/engineAsr/asr/GoogleFree/GoogleFreeAsr.java:412 | The index returned holds the tag and no earlier element does. |
| Matches.RemoveFirstAt | AsrEngine/src/main/java/com/mls/engineAsr/asr/GoogleFree/GoogleFreeAsr.java:412 | List removal deletes exactly the earliest occurrence of the tag and keeps every other element in order. |
| Matches.RemoveFirstMultiset | AsrEngine/src/main/java/com/mls/engineAsr/asr/GoogleFree/GoogleFreeAsr.java:412 | Removal takes away exactly one copy of the tag: the multiset of the result is the input's minus one "mk-MK". |
| Matches.RemoveFirstKeepsOthers | AsrEngine/src/main/java/com/mls/engineAsr/asr/GoogleFree/GoogleFreeAsr.java:412 | Any other tag is in the list after removal exactly when it was before. |
| SessionSpec.StartsAppend | AsrEngine/src/main/java/com/mls/engineAsr/asr/GoogleFree/GoogleFreeAsr.java:283 | Start calls in a concatenated call log add up. |
| SessionSpec.Mute | AsrEngine/src/main/java/com/mls/engineAsr/asr/GoogleFree/GoogleFreeAsr.java:469-486 | Muting mutes and re-arms the automatic unmute 900 ms later when an audio manager exists, and changes nothing else; without one it changes nothing. |
| SessionSpec.Unmute | AsrEngine/src/main/java/com/mls/engineAsr/asr/GoogleFree/GoogleFreeAsr.java:469-486 | Unmuting clears the muted flag when an audio manager exists and leaves the pending automatic unmute armed; without one it changes nothing. |
| SessionSpec.StopListening | AsrEngine/src/main/java/com/mls/engineAsr/asr/GoogleFree/GoogleFreeAsr.java:291-323 | Stop is a no-op when idle or undefined. Otherwise it cancels and then stops a present recognizer, delivers exactly one event (final with the transcript when it is non-empty, otherwise cancelled), ends idle with an empty transcript, and leaves the timers alone. |
| SessionSpec.Teardown | AsrEngine/src/main/java/com/mls/engineAsr/asr/GoogleFree/GoogleFreeAsr.java:187-195 | Tearing down a present recognizer stops the request, then issues a destroy, and leaves no recognizer. Without a recognizer nothing changes. |
| SessionSpec.Rebuild | AsrEngine/src/main/java/com/mls/engineAsr/asr/GoogleFree/GoogleFreeAsr.java:171-223 | Rebuild when recognition is unavailable sets UNDEFINED, reports a failed initialisation and keeps the old recognizer. Otherwise it tears the old one down, creates one for the language and reports success. The state stays what it was; a busy state becomes idle through the stop. |
| SessionSpec.RebuildEstablishesInv | AsrEngine/src/main/java/com/mls/engineAsr/asr/GoogleFree/GoogleFreeAsr.java:171-223 | A rebuild leaves every session that is not UNDEFINED with a recognizer, so it restores the whole invariant from the request part alone (as the constructor needs before its first rebuild). |
| SessionSpec.Construct | AsrEngine/src/main/java/com/mls/engineAsr/asr/GoogleFree/GoogleFreeAsr.java:89-160 | A new engine starts idle with an empty transcript, timestamp 0 and nothing pending, rebuilt for its language; it satisfies the session invariant. |
| SessionSpec.StartListening | AsrEngine/src/main/java/com/mls/engineAsr/asr/GoogleFree/GoogleFreeAsr.java:233-284 | Within 1500 ms of the last accepted start nothing changes. A busy engine with a recognizer is unchanged. A rejected start issues no start call and keeps the per-request fields. An accepted start records the request, arms the 3000 ms watchdog, clears the transcript and final flag, mutes and issues exactly one start call. This is the corrected form, see Findings. |
| SessionSpec.DisposeEngine | AsrEngine/src/main/java/com/mls/engineAsr/asr/GoogleFree/GoogleFreeAsr.java:332-350 | Disposal stops, cancels and destroys a present recognizer, unmutes when an audio manager exists, and sets UNDEFINED. It delivers nothing and changes nothing else; without an audio manager the muted flag is kept. |
| SessionSpec.SetRecognitionLanguage | AsrEngine/src/main/java/com/mls/engineAsr/asr/GoogleFree/GoogleFreeAsr.java:432-434 | Changing the language rebuilds: when available, the last recognizer call creates a recognizer for the new language. When unavailable, no call is issued and the engine is UNDEFINED. The stored construction language is not updated. |
| SessionSpec.SetListener | AsrEngine/src/main/java/com/mls/engineAsr/asr/GoogleFree/GoogleFreeAsr.java:376-378 | Only the listener changes. |
| SessionSpec.OnLanguageDetails | AsrEngine/src/main/java/com/mls/engineAsr/asr/GoogleFree/GoogleFreeAsr.java:393-420 | A failed query reports a null list and keeps the stored one. A successful one stores the returned list with one "mk-MK" removed, or null when there is none, and reports what it stored. |
| SessionSpec.OnReadyForSpeech | AsrEngine/src/main/java/com/mls/engineAsr/asr/GoogleFree/GoogleFreeAsr.java:497-509 | In every state: mute and re-arm the automatic unmute 900 ms later (when an audio manager exists), report the start, become LISTENING and cancel the pending stuck-request watchdogs. Nothing else changes. |
| SessionSpec.OnEndOfSpeech | AsrEngine/src/main/java/com/mls/engineAsr/asr/GoogleFree/GoogleFreeAsr.java:542-545 | End of speech only mutes: with an audio manager the stream is muted and the automatic unmute re-armed 900 ms later; nothing else changes, and without an audio manager nothing changes at all. |
| SessionSpec.OnPartialResults | AsrEngine/src/main/java/com/mls/engineAsr/asr/GoogleFree/GoogleFreeAsr.java:640-661 | Ignored unless LISTENING. Otherwise a present match list becomes the transcript (joined) and is reported as partial. In both cases the no-results watchdog is re-armed 3000 ms later. |
| SessionSpec.OnResults | AsrEngine/src/main/java/com/mls/engineAsr/asr/GoogleFree/GoogleFreeAsr.java:599-626 | Ignored when a final was already sent or the engine is not LISTENING. Otherwise: idle, final flag set, no-results watchdog cleared, exactly one final with the first match or "", and the transcript cleared. |
| SessionSpec.OnError | AsrEngine/src/main/java/com/mls/engineAsr/asr/GoogleFree/GoogleFreeAsr.java:556-588 | Every error mutes, re-arms the automatic unmute 900 ms later (when an audio manager exists) and ends idle. Code 8 cancels the recognizer and reports the error. Code 7 reports a cancellation and keeps both watchdogs. Every other code reports the error. All codes other than 7 clear both watchdogs. The transcript, final flag, request timestamp, language, listener and language list are kept. |
| SessionSpec.FireListenWatchdog | AsrEngine/src/main/java/com/mls/engineAsr/asr/GoogleFree/GoogleFreeAsr.java:119-137 | A due stuck-request watchdog is consumed. It acts only in REQUESTED: cancel, then stop, exactly one cancellation, and idle. |
| SessionSpec.FireNoResultsWatchdog | AsrEngine/src/main/java/com/mls/engineAsr/asr/GoogleFree/GoogleFreeAsr.java:141-156 | A due no-results watchdog is consumed. It acts only while LISTENING with a non-empty transcript, and then behaves as stop. |
| SessionSpec.FireUnmute | AsrEngine/src/main/java/com/mls/engineAsr/asr/GoogleFree/GoogleFreeAsr.java:106-116 | A due automatic unmute is consumed and unmutes the stream when an audio manager exists; without one the muted flag is kept. Nothing else changes. |
| SessionTraces.AcceptKeepsInv | AsrEngine/src/main/java/com/mls/engineAsr/asr/GoogleFree/GoogleFreeAsr.java:264-283 | An accepted start on an idle or undefined session with a recognizer keeps the invariant. |
| SessionTraces.StartKeepsInv | AsrEngine/src/main/java/com/mls/engineAsr/asr/GoogleFree/GoogleFreeAsr.java:233-284 | Every start request keeps the invariant. |
| SessionTraces.FireListenKeepsInv | AsrEngine/src/main/java/com/mls/engineAsr/asr/GoogleFree/GoogleFreeAsr.java:119-137 | Firing the stuck-request watchdog keeps the invariant. |
| SessionTraces.CallbackKeepsInv | AsrEngine/src/main/java/com/mls/engineAsr/asr/GoogleFree/GoogleFreeAsr.java:497-661 | Every recognizer callback keeps the invariant. |
| SessionTraces.StepKeepsInv | AsrEngine/src/main/java/com/mls/engineAsr/asr/GoogleFree/GoogleFreeAsr.java:106-661 | Every command, callback and timer firing keeps the invariant. |
| SessionTraces.RunKeepsInv | AsrEngine/src/main/java/com/mls/engineAsr/asr/GoogleFree/GoogleFreeAsr.java:106-661 | Any sequence of inputs keeps the invariant. |
| SessionTraces.ReachableSatisfiesInv | AsrEngine/src/main/java/com/mls/engineAsr/asr/GoogleFree/GoogleFreeAsr.java:89-160 | Every session reached from the constructor satisfies the invariant: every session that is not UNDEFINED has a recognizer (stated outright as well), a requested one has a pending watchdog due 3000 ms after its start, and a muted stream has an unmute pending. |
| SessionTraces.StepWithoutStart | AsrEngine/src/main/java/com/mls/engineAsr/asr/GoogleFree/GoogleFreeAsr.java:233-284 | No input other than a start moves the request timestamp or clears the final flag. |
| SessionTraces.RunWithoutAcceptedStart | AsrEngine/src/main/java/com/mls/engineAsr/asr/GoogleFree/GoogleFreeAsr.java:233-284 | Across any run in which no start is accepted (starts that are too early or find the engine busy may occur), the request timestamp stays put and a delivered final stays recorded. |
| SessionTraces.SecondStartIgnored | AsrEngine/src/main/java/com/mls/engineAsr/asr/GoogleFree/GoogleFreeAsr.java:237-244 | A start less than 1500 ms after an accepted start changes nothing, whatever inputs happened in between, including starts that were rejected. |
| SessionTraces.AcceptedResults | AsrEngine/src/main/java/com/mls/engineAsr/asr/GoogleFree/GoogleFreeAsr.java:599-626 | Counts the final-results callbacks in a run that are acted upon. |
| SessionTraces.ResultsStep | AsrEngine/src/main/java/com/mls/engineAsr/asr/GoogleFree/GoogleFreeAsr.java:599-626 | A final-results callback that is not acted on changes nothing. One that is acted on ends idle, sets the final flag and delivers exactly one final result. |
| SessionTraces.StepKeepsFinal | AsrEngine/src/main/java/com/mls/engineAsr/asr/GoogleFree/GoogleFreeAsr.java:264-272 | Only an accepted start moves the request timestamp or clears the final flag. Every other input, including a rejected start, keeps both. |
| SessionTraces.ResultsAtMostOnce | AsrEngine/src/main/java/com/mls/engineAsr/asr/GoogleFree/GoogleFreeAsr.java:599-626 | Across any run in which no start is accepted, final results are acted on at most once, and not at all once a final was sent. The run may contain starts that are too early or that find the engine busy. |
| SessionTraces.StuckRequestCancelled | AsrEngine/src/main/java/com/mls/engineAsr/asr/GoogleFree/GoogleFreeAsr.java:119-137 | A request still in REQUESTED 3000 ms after its start has a watchdog due. Firing it cancels and stops the recognizer, delivers one cancellation and returns to idle. |
| SessionTraces.SilenceAcceptsTranscript | AsrEngine/src/main/java/com/mls/engineAsr/asr/GoogleFree/GoogleFreeAsr.java:141-156 | After a partial result whose matches join to a non-empty transcript, and 3000 ms of silence, the watchdog delivers exactly that joined transcript as final and ends idle. This holds for any list of matches. |
| SessionTraces.PartialExtendsTranscript | AsrEngine/src/main/java/com/mls/engineAsr/asr/GoogleFree/GoogleFreeAsr.java:640-661 | When the next partial list is the previous one with a match appended, the new transcript is the previous one followed by that match, and exactly that is reported. |
| SessionTraces.EmptyMatchesStopCancels | AsrEngine/src/main/java/com/mls/engineAsr/asr/GoogleFree/GoogleFreeAsr.java:640-661 | After a partial whose matches are all empty, the transcript is empty. A stop then delivers a cancellation and not a final result. |
| SessionTraces.MutingIsBounded | AsrEngine/src/main/java/com/mls/engineAsr/asr/GoogleFree/GoogleFreeAsr.java:469-486 | A muted stream always has an automatic unmute pending, and firing it once due unmutes. |
| SessionTraces.StaleWatchdogAfterStop | AsrEngine/src/main/java/com/mls/engineAsr/asr/GoogleFree/GoogleFreeAsr.java:291-323 | A stop in REQUESTED leaves the watchdog pending. With starts at 2000 and 3500 and a stop between them, the watchdog cancels the second request at 5000, before its own timeout. |
| SessionTraces.StaleWatchdogCancelsLaterRequest | AsrEngine/src/main/java/com/mls/engineAsr/asr/GoogleFree/GoogleFreeAsr.java:571-577 | Because a no-match error keeps the watchdog, the first request's watchdog (due 5000) cancels a second request accepted at 3500, before that request's own timeout. |
| SessionTraces.DisposeIdempotent | AsrEngine/src/main/java/com/mls/engineAsr/asr/GoogleFree/GoogleFreeAsr.java:332-350 | Disposing twice is the same as disposing once. |
| SessionTraces.SupportedAfterRetrieval | AsrEngine/src/main/java/com/mls/engineAsr/asr/GoogleFree/GoogleFreeAsr.java:364-366 | After a successful query, a tag other than "mk-MK" is supported exactly when the platform listed it; "mk-MK" only when it was listed at least twice. |
| SessionFindings.StartListeningAsWritten | AsrEngine/src/main/java/com/mls/engineAsr/asr/GoogleFree/GoogleFreeAsr.java:249-283 | As written, a start that rebuilds unsuccessfully goes on to record the request and start the absent recognizer. This happens exactly when the interval has passed, no recognizer exists and recognition is unavailable. Otherwise it agrees with the corrected start. |
| SessionFindings.StartOnUnavailableDeviceFails | AsrEngine/src/main/java/com/mls/engineAsr/asr/GoogleFree/GoogleFreeAsr.java:249-283 | On a device without recognition, the first start after construction reaches the absent recognizer. |
| SessionFindings.CorrectedStartOnUnavailableDevice | AsrEngine/src/main/java/com/mls/engineAsr/asr/GoogleFree/GoogleFreeAsr.java:174-185 | The corrected start on such a device ends UNDEFINED, reports the failed initialisation and issues no start. |
| GoogleFree.GoogleFreeAsr.constructor | AsrEngine/src/main/java/com/mls/engineAsr/asr/GoogleFree/GoogleFreeAsr.java:89-160 | The new engine's state is Construct of its arguments and satisfies the invariant. |
| GoogleFree.GoogleFreeAsr.MuteStream | AsrEngine/src/main/java/com/mls/engineAsr/asr/GoogleFree/GoogleFreeAsr.java:469-486 | The new state is Mute or Unmute of the old one. |
| GoogleFree.GoogleFreeAsr.Rebuild | AsrEngine/src/main/java/com/mls/engineAsr/asr/GoogleFree/GoogleFreeAsr.java:171-223 | The new state is Rebuild of the old one. It needs only the request part of the invariant, which the constructor has before its rebuild, and establishes the whole invariant. |
| GoogleFree.GoogleFreeAsr.StartListening | AsrEngine/src/main/java/com/mls/engineAsr/asr/GoogleFree/GoogleFreeAsr.java:233-284 | The new state is the corrected StartListening of the old one, and the invariant is kept. |
| GoogleFree.GoogleFreeAsr.Accept | AsrEngine/src/main/java/com/mls/engineAsr/asr/GoogleFree/GoogleFreeAsr.java:264-283 | The new state is SessionSpec.Accept of the old one (GoogleFreeAsr.java:264-283): REQUESTED, a watchdog appended 3000 ms out, the transcript and final flag cleared, the timestamp recorded, muted, and one start call; SessionSpec.StartListening states these effects and AcceptKeepsInv proves the invariant kept. |
| GoogleFree.GoogleFreeAsr.StopListening | AsrEngine/src/main/java/com/mls/engineAsr/asr/GoogleFree/GoogleFreeAsr.java:291-323 | The new state is StopListening of the old one, and the invariant is kept. |
| GoogleFree.GoogleFreeAsr.DisposeEngine | AsrEngine/src/main/java/com/mls/engineAsr/asr/GoogleFree/GoogleFreeAsr.java:332-350 | The new state is DisposeEngine of the old one, and the invariant is kept. |
| SessionSpec.LanguageIsSupported | AsrEngine/src/main/java/com/mls/engineAsr/asr/GoogleFree/GoogleFreeAsr.java:364-366 | A tag is supported exactly when some entry of the stored list equals it. |
| GoogleFree.GoogleFreeAsr.LanguageIsSupported | AsrEngine/src/main/java/com/mls/engineAsr/asr/GoogleFree/GoogleFreeAsr.java:364-366 | The answer is whether the stored list contains the tag; nothing changes. |
| GoogleFree.GoogleFreeAsr.SetListener | AsrEngine/src/main/java/com/mls/engineAsr/asr/GoogleFree/GoogleFreeAsr.java:376-378 | Only the listener changes. |
| GoogleFree.GoogleFreeAsr.OnLanguageDetails | AsrEngine/src/main/java/com/mls/engineAsr/asr/GoogleFree/GoogleFreeAsr.java:393-420 | The new state is OnLanguageDetails of the old one, and the invariant is kept. |
| GoogleFree.GoogleFreeAsr.SetRecognitionLanguage | AsrEngine/src/main/java/com/mls/engineAsr/asr/GoogleFree/GoogleFreeAsr.java:432-434 | The new state is SetRecognitionLanguage of the old one, and the invariant is kept. |
| GoogleFree.GoogleFreeAsr.EngineCode | AsrEngine/src/main/java/com/mls/engineAsr/asr/GoogleFree/GoogleFreeAsr.java:443-445 | The engine's code is GOOGLE_FREE. |
| GoogleFree.GoogleFreeAsr.OnReadyForSpeech | AsrEngine/src/main/java/com/mls/engineAsr/asr/GoogleFree/GoogleFreeAsr.java:497-509 | The new state is OnReadyForSpeech of the old one, and the invariant is kept. |
| GoogleFree.GoogleFreeAsr.OnEndOfSpeech | AsrEngine/src/main/java/com/mls/engineAsr/asr/GoogleFree/GoogleFreeAsr.java:542-545 | The new state is OnEndOfSpeech of the old one, and the invariant is kept. |
| GoogleFree.GoogleFreeAsr.OnError | AsrEngine/src/main/java/com/mls/engineAsr/asr/GoogleFree/GoogleFreeAsr.java:556-588 | The new state is OnError of the old one, and the invariant is kept. |
| GoogleFree.GoogleFreeAsr.OnResults | AsrEngine/src/main/java/com/mls/engineAsr/asr/GoogleFree/GoogleFreeAsr.java:599-626 | The new state is OnResults of the old one, and the invariant is kept. |
| GoogleFree.GoogleFreeAsr.OnPartialResults | AsrEngine/src/main/java/com/mls/engineAsr/asr/GoogleFree/GoogleFreeAsr.java:640-661 | The new state is OnPartialResults of the old one, and the invariant is kept. |
| GoogleFree.GoogleFreeAsr.FireListenWatchdog | AsrEngine/src/main/java/com/mls/engineAsr/asr/GoogleFree/GoogleFreeAsr.java:119-137 | The new state is FireListenWatchdog of the old one, and the invariant is kept. |
| GoogleFree.GoogleFreeAsr.FireNoResultsWatchdog | AsrEngine/src/main/java/com/mls/engineAsr/asr/GoogleFree/GoogleFreeAsr.java:141-156 | The new state is FireNoResultsWatchdog of the old one, and the invariant is kept. |
| GoogleFree.GoogleFreeAsr.FireUnmute | AsrEngine/src/main/java/com/mls/engineAsr/asr/GoogleFree/GoogleFreeAsr.java:106-116 | The new state is FireUnmute of the old one, and the invariant is kept. |
| AsrManager.EngineToString | AsrEngine/src/main/java/com/vgraphics/engineAsr/asr/Asr.java:390-394 | GOOGLE_FREE is named "Google Free" and every other id is "undefined". |
| AsrManager.AvailableEngines | AsrEngine/src/main/java/com/vgraphics/engineAsr/asr/Asr.java:373-377 | The list has one entry, and an id is in it exactly when it has a name. |
| AsrManager.Normalize | AsrEngine/src/main/java/com/vgraphics/engineAsr/asr/Asr.java:302-308 | The result is never empty. It is the given tag when that is present and non-empty, and the fallback otherwise. |
| AsrManager.ConstructPlan | AsrEngine/src/main/java/com/vgraphics/engineAsr/asr/Asr.java:461-472 | An engine whose code matches the requested id only changes language. Otherwise any existing engine is disposed of, and a new one is built exactly when the id is GOOGLE_FREE. |
| AsrManager.BuildOnlyWithoutEngine | AsrEngine/src/main/java/com/vgraphics/engineAsr/asr/Asr.java:461-472 | Since every engine reports the Google Free code, a new engine is built only when there is no engine, and nothing is disposed of on that path: an existing engine is reused, never replaced. |
| AsrManager.DisposedEngineRestarts | AsrEngine/src/main/java/com/vgraphics/engineAsr/asr/Asr.java:425-439 | Destroy keeps the engine reference, so a later start on the disposed engine rebuilds its recognizer and issues one start call. |
| AsrManager.Asr.constructor | AsrEngine/src/main/java/com/vgraphics/engineAsr/asr/Asr.java:43 | A new manager has no engine, engine id GOOGLE_FREE, and no listener or language. |
| AsrManager.Asr.GetCurrentLanguage | AsrEngine/src/main/java/com/vgraphics/engineAsr/asr/Asr.java:302-308 | The stored language, replaced and stored as the default locale tag when missing or empty, is returned and is never empty. |
| AsrManager.Asr.Initialize | AsrEngine/src/main/java/com/vgraphics/engineAsr/asr/Asr.java:87-146 | Stores the context, the id and the normalised language, then constructs, with all four construct outcomes (`Constructed`). The one-argument overload passes no language; the one- and two-argument overloads both pass GOOGLE_FREE. |
| AsrManager.Asr.SetLanguage | AsrEngine/src/main/java/com/vgraphics/engineAsr/asr/Asr.java:166-178 | A language equal to the current one after normalisation changes nothing, and the engine is untouched. A new one is stored and the engine is constructed again, with all four construct outcomes (`Constructed`): change language, dispose and keep under another id, build, or stay without an engine. |
| AsrManager.Asr.SetListener | AsrEngine/src/main/java/com/vgraphics/engineAsr/asr/Asr.java:189-195 | The listener is always stored, and it is handed to the engine only when there is one. |
| AsrManager.Asr.SetEngine | AsrEngine/src/main/java/com/vgraphics/engineAsr/asr/Asr.java:207-219 | The current id changes nothing. Another id is stored and triggers one construct, with all four outcomes (`Constructed`). For example, with no engine and the new id GOOGLE_FREE, a Google Free engine is built. |
| AsrManager.Asr.StartListening | AsrEngine/src/main/java/com/vgraphics/engineAsr/asr/Asr.java:241-259 | Without an engine nothing happens; otherwise the engine performs its start. |
| AsrManager.Asr.StopListening | AsrEngine/src/main/java/com/vgraphics/engineAsr/asr/Asr.java:268-286 | Without an engine nothing happens; otherwise the engine performs its stop. |
| AsrManager.Asr.LanguageIsSupported | AsrEngine/src/main/java/com/vgraphics/engineAsr/asr/Asr.java:323-332 | False without an engine; otherwise whether the engine lists the tag. |
| AsrManager.Asr.GetSupportedLanguages | AsrEngine/src/main/java/com/vgraphics/engineAsr/asr/Asr.java:349-359 | True exactly when there is an engine to send the query. |
| AsrManager.Asr.GetAvailability | AsrEngine/src/main/java/com/vgraphics/engineAsr/asr/Asr.java:407-415 | False without an engine; otherwise whether recognition is available on the device. |
| AsrManager.Asr.Destroy | AsrEngine/src/main/java/com/vgraphics/engineAsr/asr/Asr.java:425-439 | A present engine is disposed of, and the reference is kept. |
| AsrManager.Asr.ConstructEngine | AsrEngine/src/main/java/com/vgraphics/engineAsr/asr/Asr.java:455-476 | `Constructed` gives the four outcomes. An existing engine with the Google Free id changes language. An existing engine under another id is disposed of and kept. Without an engine, one is built from the stored language and listener when the id is GOOGLE_FREE, and otherwise there stays none. |

## Left out

- Threads, `Handler` posting and `synchronized` blocks are not modelled. Every operation is applied
  at once and operations are treated as serialised. This includes the manager's posted
  start, stop, construct and dispose, and the engine's posted "initialised" callback, which the
  model delivers immediately.
- The order in which timers fire is not fixed. Any due timer may fire at any point of a run.
- Logging, the Android `Context`, the recognizer intent and the audio volume calls are left out.
  The audio stream is a `muted` flag, and the platform recognizer is a `recognizer` flag plus a
  log of calls.
- `getSupportedLanguages` sends an ordered broadcast. The broadcast itself is left out. Its
  answer is modelled by `OnLanguageDetails`, which takes the result code and the returned list
  as parameters.
- `onBeginningOfSpeech`, `onRmsChanged`, `onBufferReceived` and `onEvent` only log or do nothing,
  so they are not modelled.
- GoogleFree.GoogleFreeAsr callbacks require a present recognizer, because only a live recognizer
  calls back. SessionTraces.Step drops a callback that arrives when there is none.
- The engine's `getAvailability` is the platform query `SpeechRecognizer.isRecognitionAvailable`.
  It appears only as the `available` parameter.
- AsrManager.Asr.SetLanguage requires a stored language whenever the argument is non-empty. The
  code dereferences the stored language there, and it is missing before initialisation.
- AsrManager.Asr.Initialize, SetLanguage, SetEngine and ConstructEngine require a stored context
  and a listener whenever a new engine would be built. The code dereferences both there.
- AsrManager.Asr.LanguageIsSupported and GoogleFree.GoogleFreeAsr.LanguageIsSupported require the
  engine's language list to be present, because the code dereferences it.
- The static `instance` field that `destroy` clears is not modelled. It is assigned only by the
  library and Unity singleton accessors, which are not part of this model. The static `engine`
  field is a field of the one manager.
- The Unity and library bridges, `GoogleAsr` (whose body is commented out) and the interface
  files are not part of this model beyond the shapes of their events and calls.
- Integer widths are not modelled. Timestamps are unbounded integers, whereas the code uses a
  `long` millisecond clock, which never wraps in practice.

## Findings

| source | as written | input that shows it | evidently intended | confidence | as-written member | corrected member |
|---|---|---|---|---|---|---|
| AsrEngine/src/main/java/com/mls/engineAsr/asr/GoogleFree/GoogleFreeAsr.java:249-283 | After `rebuild` fails because recognition is unavailable, `startListening` goes on: it sets REQUESTED, arms the watchdog, mutes, and calls `startListening` on the null recognizer, a null dereference | an engine built on a device where recognition is unavailable, then any start request (the request timestamp starts at 0, so the debounce never blocks the first start) | stop the request after a failed rebuild: the engine stays UNDEFINED, with the failed initialisation reported and no start call | not executed | SessionFindings.StartListeningAsWritten | SessionSpec.StartListening |
