/** The recognition session of the Google Free engine as a value: its fields, one function per
    command, backend callback and timer firing, and the invariant every one of them keeps.
    Time is the parameter `now` (milliseconds); a pending timer is its due time. */
module SessionSpec {
  import opened AsrTypes
  import opened Matches

  /** Everything the engine keeps, plus what it has told the listener (`delivered`) and asked of
      the platform recognizer (`calls`). `recognizer` stands for a non-null recognizer object;
      `audio` for a non-null audio manager. */
  datatype Session = Session(
    state: EngineState,
    language: string,                        // the language given at construction
    listener: ListenerId,
    currentText: string,                     // transcript of the request in flight
    sentFinal: bool,                         // a final result was delivered for this request
    requestTimestamp: int,                   // time of the last accepted start
    recognizer: bool,
    audio: bool,
    muted: bool,                             // the music stream is muted by the engine
    listenDue: seq<int>,                     // pending "stuck request" watchdogs, in post order
    noResultsDue: Option<int>,               // pending "no further results" watchdog
    unmuteDue: Option<int>,                  // pending automatic unmute
    supportedLanguages: Option<seq<string>>, // None once the platform answered without a list
    delivered: seq<Delivery>,
    calls: seq<RecognizerCall>)

  // ---------------------------------------------------------------------------------------
  // Helpers
  // ---------------------------------------------------------------------------------------

  function Emit(s: Session, e: Event): Session
  {
    s.(delivered := s.delivered + [Delivery(s.listener, e)])
  }

  function Issue(s: Session, cs: seq<RecognizerCall>): Session
  {
    s.(calls := s.calls + cs)
  }

  /** Number of start calls in a call log. */
  function Starts(calls: seq<RecognizerCall>): nat
  {
    if calls == [] then 0
    else Starts(calls[..|calls| - 1]) + (if calls[|calls| - 1] == Start then 1 else 0)
  }

  lemma {:induction false} StartsAppend(a: seq<RecognizerCall>, b: seq<RecognizerCall>)
    ensures Starts(a + b) == Starts(a) + Starts(b)
  {
    if b != [] {
      var b' := b[..|b| - 1];
      assert (a + b)[..|a + b| - 1] == a + b';
      StartsAppend(a, b');
    } else {
      assert a + b == a;
    }
  }

  /** The state a session is in when the recognizer has been asked to start and has not ended. */
  predicate Busy(s: Session)
  {
    s.state == Requested || s.state == Listening
  }

  // ---------------------------------------------------------------------------------------
  // Audio muting
  // ---------------------------------------------------------------------------------------

  /** Mute the stream and (re)arm the automatic unmute; nothing without an audio manager. */
  function Mute(s: Session, now: int): (r: Session)
    ensures s.audio ==> r.muted && r.unmuteDue == Some(now + UNMUTE_DELAY)
    ensures !s.audio ==> r == s
    ensures r == s.(muted := r.muted, unmuteDue := r.unmuteDue)
  {
    if s.audio then s.(muted := true, unmuteDue := Some(now + UNMUTE_DELAY)) else s
  }

  /** Unmute the stream. The pending automatic unmute is left armed. */
  function Unmute(s: Session): (r: Session)
    ensures s.audio ==> !r.muted
    ensures !s.audio ==> r == s
    ensures r.unmuteDue == s.unmuteDue
    ensures r == s.(muted := r.muted)
  {
    if s.audio then s.(muted := false) else s
  }

  // ---------------------------------------------------------------------------------------
  // Commands
  // ---------------------------------------------------------------------------------------

  /** Stop the request in flight: a no-op when idle or undefined; otherwise cancel and stop the
      recognizer, deliver the transcript as final (or a cancellation when there is none) and
      return to idle. Timers are left as they are. */
  function StopListening(s: Session): (r: Session)
    ensures !Busy(s) ==> r == s
    ensures Busy(s) ==>
      && r.state == Idle && r.currentText == ""
      && r.delivered == s.delivered + [Delivery(s.listener,
           if s.currentText != "" then FinalResult(s.currentText) else Cancelled)]
      && r.calls == s.calls + (if s.recognizer then [Cancel, Stop] else [])
      && r == s.(state := Idle, currentText := "", delivered := r.delivered, calls := r.calls)
  {
    if s.state == Idle || s.state == Undefined then s
    else
      var s1 := if s.recognizer then Issue(s, [Cancel, Stop]) else s;
      var s2 := Emit(s1, if s.currentText != "" then FinalResult(s.currentText) else Cancelled);
      s2.(state := Idle, currentText := "")
  }

  /** Stop and destroy the recognizer, if there is one. */
  function Teardown(s: Session): (r: Session)
    ensures !r.recognizer
    ensures s.recognizer ==>
      && r.calls == StopListening(s).calls + [Destroy]
      && r.delivered == StopListening(s).delivered
      && r.state == (if Busy(s) then Idle else s.state)
    ensures !s.recognizer ==> r == s
    ensures Starts(r.calls) == Starts(s.calls)
    ensures r.language == s.language && r.listener == s.listener && r.audio == s.audio
    ensures r.sentFinal == s.sentFinal && r.requestTimestamp == s.requestTimestamp
    ensures r.listenDue == s.listenDue && r.muted == s.muted && r.unmuteDue == s.unmuteDue
  {
    if s.recognizer then
      StartsAppend(s.calls, [Cancel, Stop]);
      StartsAppend(StopListening(s).calls, [Destroy]);
      Issue(StopListening(s), [Destroy]).(recognizer := false)
    else s
  }

  /** Rebuild the recognizer for a language. When recognition is unavailable the session becomes
      undefined and reports a failed initialization, keeping any recognizer it had. Otherwise an
      existing recognizer is stopped and destroyed, a new one is created, and a successful
      initialization is reported; the state is not reset. */
  function Rebuild(s: Session, language: string, available: bool): (r: Session)
    ensures !available ==>
      && r.state == Undefined && r.recognizer == s.recognizer && r.calls == s.calls
      && r.delivered == s.delivered + [Delivery(s.listener, Initialized(false))]
    ensures available ==>
      && r.recognizer
      && r.state == Teardown(s).state
      && r.calls == Teardown(s).calls + [Create(language)]
      && r.delivered == Teardown(s).delivered + [Delivery(s.listener, Initialized(true))]
    ensures Starts(r.calls) == Starts(s.calls)
    ensures r.language == s.language && r.listener == s.listener && r.audio == s.audio
    ensures r.sentFinal == s.sentFinal && r.requestTimestamp == s.requestTimestamp
    ensures r.listenDue == s.listenDue && r.muted == s.muted && r.unmuteDue == s.unmuteDue
  {
    if !available then
      Emit(s.(state := Undefined), Initialized(false))
    else
      var s1 := Teardown(s);
      StartsAppend(s1.calls, [Create(language)]);
      Emit(Issue(s1, [Create(language)]).(recognizer := true), Initialized(true))
  }

  /** A session as the engine constructor leaves it: idle with nothing pending, then rebuilt. */
  function Construct(language: string, listener: ListenerId, audio: bool, available: bool): (r: Session)
    ensures Inv(r)
    ensures available ==>
      && r.state == Idle && r.recognizer
      && r.calls == [Create(language)] && r.delivered == [Delivery(listener, Initialized(true))]
    ensures !available ==>
      && r.state == Undefined && !r.recognizer
      && r.calls == [] && r.delivered == [Delivery(listener, Initialized(false))]
    ensures r.language == language && r.listener == listener && r.audio == audio
    ensures r.currentText == "" && !r.sentFinal && r.requestTimestamp == 0 && !r.muted
  {
    var s := Session(Idle, language, listener, "", false, 0, false, audio, false,
                     [], None, None, Some([]), [], []);
    RebuildEstablishesInv(s, language, available);
    Rebuild(s, language, available)
  }

  /** The session after the recognizer check at the head of a start request: rebuilt for the
      construction language when there is no recognizer. */
  function EnsureRecognizer(s: Session, available: bool): Session
  {
    if s.recognizer then s else Rebuild(s, s.language, available)
  }

  /** A start request is accepted: the minimum interval since the last accepted start has
      passed, the engine is neither requested nor listening, and a recognizer exists. */
  predicate StartAccepted(s: Session, now: int, available: bool)
  {
    && now - s.requestTimestamp >= REQUEST_INTERVAL
    && var s1 := EnsureRecognizer(s, available);
       !Busy(s1) && s1.recognizer
  }

  /** The effect of an accepted start. */
  function Accept(s: Session, now: int): Session
  {
    var s1 := s.(state := Requested, listenDue := s.listenDue + [now + LISTEN_TIMEOUT],
                 sentFinal := false, currentText := "", requestTimestamp := now);
    Issue(Mute(s1, now), [Start])
  }

  /** Start a recognition request. Too soon after the previous accepted start nothing happens;
      a busy engine is left as it is; otherwise the request is recorded, the stuck-request
      watchdog is armed, the stream is muted and exactly one start call is issued. When no
      recognizer exists and one cannot be built, the request goes no further. */
  function StartListening(s: Session, now: int, available: bool): (r: Session)
    ensures now - s.requestTimestamp < REQUEST_INTERVAL ==> r == s
    ensures s.recognizer && Busy(s) ==> r == s
    ensures !StartAccepted(s, now, available) ==>
      && Starts(r.calls) == Starts(s.calls)
      && r.currentText == s.currentText && r.sentFinal == s.sentFinal
      && r.requestTimestamp == s.requestTimestamp && r.listenDue == s.listenDue
      && (Busy(s) && (s.recognizer || available) ==> r.state == s.state)
    ensures StartAccepted(s, now, available) ==>
      && r.state == Requested && r.recognizer
      && !r.sentFinal && r.currentText == "" && r.requestTimestamp == now
      && r.listenDue == s.listenDue + [now + LISTEN_TIMEOUT]
      && (r.audio ==> r.muted && r.unmuteDue == Some(now + UNMUTE_DELAY))
      && |r.calls| > 0 && r.calls[|r.calls| - 1] == Start
      && Starts(r.calls) == Starts(s.calls) + 1
    ensures StartAccepted(s, now, available) && s.recognizer ==>
      r.calls == s.calls + [Start] && r.delivered == s.delivered
  {
    if now - s.requestTimestamp < REQUEST_INTERVAL then s
    else
      var s1 := EnsureRecognizer(s, available);
      if Busy(s1) || !s1.recognizer then s1
      else
        StartsAppend(Mute(s1, now).calls, [Start]);
        Accept(s1, now)
  }

  /** Release the recognizer: stop, cancel and destroy it when there is one, unmute the stream
      and become undefined. Pending timers and the transcript are untouched. */
  function DisposeEngine(s: Session): (r: Session)
    ensures r.state == Undefined && !r.recognizer
    ensures s.audio ==> !r.muted
    ensures !s.audio ==> r.muted == s.muted
    ensures r.calls == s.calls + (if s.recognizer then [Stop, Cancel, Destroy] else [])
    ensures r.delivered == s.delivered
    ensures r == s.(state := Undefined, recognizer := false, muted := r.muted, calls := r.calls)
  {
    var s1 := if s.recognizer then Issue(s, [Stop, Cancel, Destroy]).(recognizer := false) else s;
    Unmute(s1).(state := Undefined)
  }

  /** Change the recognition language: a rebuild for that language. The session's own language
      field, used by later self-rebuilds, is not changed. */
  function SetRecognitionLanguage(s: Session, language: string, available: bool): (r: Session)
    ensures r.language == s.language
    ensures available ==> r.recognizer && |r.calls| > 0 && r.calls[|r.calls| - 1] == Create(language)
    ensures !available ==> r.state == Undefined && r.calls == s.calls
  {
    Rebuild(s, language, available)
  }

  /** Replace the listener; later events go to the new one. */
  function SetListener(s: Session, listener: ListenerId): (r: Session)
    ensures r.listener == listener
    ensures r.(listener := s.listener) == s
  {
    s.(listener := listener)
  }

  /** Membership of a tag in the list of supported languages. */
  function LanguageIsSupported(s: Session, language: string): (r: bool)
    requires s.supportedLanguages.Some?
    ensures r <==> exists i :: 0 <= i < |s.supportedLanguages.value| && s.supportedLanguages.value[i] == language
  {
    language in s.supportedLanguages.value
  }

  /** Handle the platform's answer to the supported-languages query. A failed query reports no
      list and keeps the stored one; a successful one stores the returned list (or none) with
      the excluded tag removed once, and reports what it stored. */
  function OnLanguageDetails(s: Session, resultOk: bool, extras: Option<seq<string>>): (r: Session)
    ensures !resultOk ==>
      r.supportedLanguages == s.supportedLanguages
      && r.delivered == s.delivered + [Delivery(s.listener, LangListRetrieved(None))]
    ensures resultOk ==>
      && (extras == None ==> r.supportedLanguages == None)
      && (extras.Some? ==> r.supportedLanguages == Some(RemoveFirst(extras.value, EXCLUDED_LANGUAGE)))
      && r.delivered == s.delivered + [Delivery(s.listener, LangListRetrieved(r.supportedLanguages))]
    ensures r.state == s.state && r.calls == s.calls
  {
    if !resultOk then Emit(s, LangListRetrieved(None))
    else
      var list := if extras.Some? then Some(RemoveFirst(extras.value, EXCLUDED_LANGUAGE)) else None;
      Emit(s.(supportedLanguages := list), LangListRetrieved(list))
  }

  // ---------------------------------------------------------------------------------------
  // Backend callbacks
  // ---------------------------------------------------------------------------------------

  /** The recognizer is ready: mute, report the start, listen and clear the stuck-request
      watchdogs, whatever the state was. */
  function OnReadyForSpeech(s: Session, now: int): (r: Session)
    ensures r.state == Listening && r.listenDue == []
    ensures r.delivered == s.delivered + [Delivery(s.listener, Started)]
    ensures s.audio ==> r.muted && r.unmuteDue == Some(now + UNMUTE_DELAY)
    ensures !s.audio ==> r.muted == s.muted && r.unmuteDue == s.unmuteDue
    ensures r.calls == s.calls && r.currentText == s.currentText && r.sentFinal == s.sentFinal
    ensures r.recognizer == s.recognizer && r.noResultsDue == s.noResultsDue
    ensures r == s.(state := Listening, listenDue := [], delivered := r.delivered,
                    muted := r.muted, unmuteDue := r.unmuteDue)
  {
    Emit(Mute(s, now), Started).(state := Listening, listenDue := [])
  }

  /** The user stopped speaking: mute against the closing tone. */
  function OnEndOfSpeech(s: Session, now: int): (r: Session)
    ensures s.audio ==> r.muted && r.unmuteDue == Some(now + UNMUTE_DELAY)
    ensures !s.audio ==> r == s
    ensures r == s.(muted := r.muted, unmuteDue := r.unmuteDue)
  {
    Mute(s, now)
  }

  /** Partial matches while listening: the transcript becomes the joined matches and is
      reported, and the no-further-results watchdog is re-armed; ignored in any other state. */
  function OnPartialResults(s: Session, matches: Option<seq<string>>, now: int): (r: Session)
    ensures s.state != Listening ==> r == s
    ensures s.state == Listening ==>
      && r.state == Listening && r.noResultsDue == Some(now + NO_RESULTS_TIMEOUT)
      && r.calls == s.calls && r.sentFinal == s.sentFinal
    ensures s.state == Listening && matches.Some? ==>
      && r.currentText == Concat(matches.value)
      && r.delivered == s.delivered + [Delivery(s.listener, PartialResult(Concat(matches.value)))]
    ensures s.state == Listening && matches.None? ==>
      r.currentText == s.currentText && r.delivered == s.delivered
  {
    if s.state != Listening then s
    else
      var s1 := if matches.Some? then Emit(s.(currentText := Concat(matches.value)),
                                           PartialResult(Concat(matches.value)))
                else s;
      s1.(noResultsDue := Some(now + NO_RESULTS_TIMEOUT))
  }

  /** Final matches: ignored once a final was delivered for this request or when not listening;
      otherwise the first match (or "") is delivered as final and the session returns to idle. */
  function OnResults(s: Session, matches: Option<seq<string>>): (r: Session)
    ensures s.sentFinal || s.state != Listening ==> r == s
    ensures !s.sentFinal && s.state == Listening ==>
      && r.state == Idle && r.sentFinal && r.currentText == "" && r.noResultsDue == None
      && r.delivered == s.delivered + [Delivery(s.listener, FinalResult(FirstOrEmpty(matches)))]
      && r.calls == s.calls && r.listenDue == s.listenDue && r.muted == s.muted
  {
    if s.sentFinal || s.state != Listening then s
    else
      var s1 := s.(state := Idle, sentFinal := true, noResultsDue := None);
      Emit(s1, FinalResult(FirstOrEmpty(matches))).(currentText := "")
  }

  /** A recognizer error: mute and go idle. "No match" is reported as a cancellation and leaves
      the watchdogs armed; "busy" cancels the recognizer and is reported as an error; any other
      code is reported as an error. Every code but "no match" clears both watchdogs. */
  function OnError(s: Session, code: int, now: int): (r: Session)
    requires code == ERROR_BUSY ==> s.recognizer
    ensures r.state == Idle
    ensures s.audio ==> r.muted && r.unmuteDue == Some(now + UNMUTE_DELAY)
    ensures !s.audio ==> r.muted == s.muted && r.unmuteDue == s.unmuteDue
    ensures code == ERROR_NO_MATCH ==>
      && r.delivered == s.delivered + [Delivery(s.listener, Cancelled)]
      && r.listenDue == s.listenDue && r.noResultsDue == s.noResultsDue
    ensures code != ERROR_NO_MATCH ==>
      && r.delivered == s.delivered + [Delivery(s.listener, Error(code))]
      && r.listenDue == [] && r.noResultsDue == None
    ensures r.calls == s.calls + (if code == ERROR_BUSY then [Cancel] else [])
    ensures r == s.(state := Idle, muted := r.muted, unmuteDue := r.unmuteDue,
                    delivered := r.delivered, calls := r.calls,
                    listenDue := r.listenDue, noResultsDue := r.noResultsDue)
  {
    var s1 := Mute(s, now).(state := Idle);
    if code == ERROR_BUSY then
      Emit(Issue(s1, [Cancel]), Error(code)).(listenDue := [], noResultsDue := None)
    else if code == ERROR_NO_MATCH then
      Emit(s1, Cancelled)
    else
      Emit(s1, Error(code)).(listenDue := [], noResultsDue := None)
  }

  // ---------------------------------------------------------------------------------------
  // Timers: a pending timer whose due time has come may fire; its guard is checked then
  // ---------------------------------------------------------------------------------------

  predicate ListenDue(s: Session, now: int)
  {
    s.listenDue != [] && s.listenDue[0] <= now
  }

  /** The oldest stuck-request watchdog fires: if the engine is still requested, the request is
      cancelled and stopped, a cancellation is reported and the engine is idle; otherwise
      nothing but the timer itself changes. */
  function FireListenWatchdog(s: Session, now: int): (r: Session)
    requires s.state == Requested ==> s.recognizer
    ensures !ListenDue(s, now) ==> r == s
    ensures ListenDue(s, now) && s.state != Requested ==> r == s.(listenDue := s.listenDue[1..])
    ensures ListenDue(s, now) && s.state == Requested ==>
      && r.state == Idle && r.listenDue == s.listenDue[1..]
      && r.calls == s.calls + [Cancel, Stop]
      && r.delivered == s.delivered + [Delivery(s.listener, Cancelled)]
      && r.currentText == s.currentText && r.sentFinal == s.sentFinal
  {
    if !ListenDue(s, now) then s
    else
      var s1 := s.(listenDue := s.listenDue[1..]);
      if s1.state != Requested then s1
      else Emit(Issue(s1, [Cancel, Stop]), Cancelled).(state := Idle)
  }

  predicate NoResultsDue(s: Session, now: int)
  {
    s.noResultsDue.Some? && s.noResultsDue.value <= now
  }

  /** The no-further-results watchdog fires: while listening with a transcript it acts as a stop
      request, which delivers the transcript as final; otherwise only the timer is cleared. */
  function FireNoResultsWatchdog(s: Session, now: int): (r: Session)
    ensures !NoResultsDue(s, now) ==> r == s
    ensures NoResultsDue(s, now) && !(s.state == Listening && s.currentText != "") ==>
      r == s.(noResultsDue := None)
    ensures NoResultsDue(s, now) && s.state == Listening && s.currentText != "" ==>
      && r == StopListening(s.(noResultsDue := None))
      && r.state == Idle && r.currentText == "" && r.noResultsDue == None
      && r.delivered == s.delivered + [Delivery(s.listener, FinalResult(s.currentText))]
  {
    if !NoResultsDue(s, now) then s
    else
      var s1 := s.(noResultsDue := None);
      if s1.state != Listening || s1.currentText == "" then s1
      else StopListening(s1)
  }

  predicate UnmuteDue(s: Session, now: int)
  {
    s.unmuteDue.Some? && s.unmuteDue.value <= now
  }

  /** The automatic unmute fires: the stream is unmuted. */
  function FireUnmute(s: Session, now: int): (r: Session)
    ensures !UnmuteDue(s, now) ==> r == s
    ensures UnmuteDue(s, now) ==>
      && r.unmuteDue == None && (s.audio ==> !r.muted) && (!s.audio ==> r.muted == s.muted)
      && r == s.(unmuteDue := None, muted := r.muted)
  {
    if !UnmuteDue(s, now) then s
    else
      var s1 := s.(unmuteDue := None);
      if !s1.audio then s1 else s1.(muted := false)
  }

  // ---------------------------------------------------------------------------------------
  // The invariant
  // ---------------------------------------------------------------------------------------

  /** What holds of every session the engine can reach:
      - every session that is not undefined has a recognizer (so a request in flight has one);
      - a requested session has clear per-request fields and a pending watchdog due exactly
        LISTEN_TIMEOUT after its start, and all pending watchdogs are in increasing due order
        and none is due later than that;
      - a muted stream always has an automatic unmute pending;
      - without an audio manager nothing is muted or pending. */
  ghost predicate Inv(s: Session)
  {
    && (s.state != Undefined ==> s.recognizer)
    && RequestInv(s)
  }

  /** The invariant without its recognizer clause: the constructor's session holds it before
      its first rebuild, and a rebuild restores the whole invariant from it. */
  ghost predicate RequestInv(s: Session)
  {
    && (s.state == Requested ==>
          && s.listenDue != []
          && s.listenDue[|s.listenDue| - 1] == s.requestTimestamp + LISTEN_TIMEOUT
          && s.currentText == "" && !s.sentFinal)
    && (forall i, j :: 0 <= i < j < |s.listenDue| ==> s.listenDue[i] < s.listenDue[j])
    && (forall i :: 0 <= i < |s.listenDue| ==> s.listenDue[i] <= s.requestTimestamp + LISTEN_TIMEOUT)
    && (s.muted ==> s.unmuteDue.Some?)
    && (!s.audio ==> !s.muted && s.unmuteDue == None)
  }

  /** A rebuild leaves a session that is not undefined holding a recognizer, so it restores the
      whole invariant from the request part alone. */
  lemma RebuildEstablishesInv(s: Session, language: string, available: bool)
    requires RequestInv(s)
    ensures Inv(Rebuild(s, language, available))
  {
  }
}
