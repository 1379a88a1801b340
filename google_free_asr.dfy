/** The Google Free recognition engine: a controller whose commands, recognizer callbacks and
    timer firings update its fields in place. Each method is proved to have exactly the effect
    of the corresponding SessionSpec function. Every command, callback and timer method also
    keeps the session invariant; the two inner steps MuteStream and Accept, which the invariant
    does not hold across on their own, are proved against their functions only. */
module GoogleFree {
  import opened AsrTypes
  import opened Matches
  import opened SessionSpec
  import SessionTraces

  class GoogleFreeAsr {
    var state: EngineState
    /** The language given at construction; a self-rebuild uses it. */
    var language: string
    var listener: ListenerId
    var currentText: string
    var sentFinal: bool
    var requestTimestamp: int
    /** A platform recognizer object exists. */
    var recognizer: bool
    /** The platform audio manager exists. */
    const audio: bool
    var muted: bool
    var listenDue: seq<int>
    var noResultsDue: Option<int>
    var unmuteDue: Option<int>
    var supportedLanguages: Option<seq<string>>
    /** Events delivered to listeners, oldest first. */
    ghost var delivered: seq<Delivery>
    /** Calls issued to the platform recognizer, oldest first. */
    ghost var calls: seq<RecognizerCall>

    ghost function Model(): Session
      reads this
    {
      Session(state, language, listener, currentText, sentFinal, requestTimestamp, recognizer,
              audio, muted, listenDue, noResultsDue, unmuteDue, supportedLanguages,
              delivered, calls)
    }

    ghost predicate Valid()
      reads this
    {
      Inv(Model())
    }

    /** Build an engine: idle with nothing pending, then rebuilt for the language. */
    constructor (language: string, listener: ListenerId, audio: bool, available: bool)
      ensures Valid()
      ensures Model() == Construct(language, listener, audio, available)
    {
      this.language := language;
      this.listener := listener;
      this.audio := audio;
      state := Idle;
      currentText := "";
      sentFinal := false;
      requestTimestamp := 0;
      recognizer := false;
      muted := false;
      listenDue := [];
      noResultsDue := None;
      unmuteDue := None;
      supportedLanguages := Some([]);
      delivered := [];
      calls := [];
      new;
      Rebuild(language, available);
    }

    ghost method Emit(e: Event)
      modifies this`delivered
      ensures delivered == old(delivered) + [Delivery(listener, e)]
    {
      delivered := delivered + [Delivery(listener, e)];
    }

    ghost method Issue(cs: seq<RecognizerCall>)
      modifies this`calls
      ensures calls == old(calls) + cs
    {
      calls := calls + cs;
    }

    method MuteStream(mute: bool, now: int)
      modifies this
      ensures Model() == if mute then Mute(old(Model()), now) else Unmute(old(Model()))
    {
      if audio {
        muted := mute;
        if mute {
          unmuteDue := Some(now + UNMUTE_DELAY);
        }
      }
    }

    method Rebuild(language: string, available: bool)
      requires RequestInv(Model())
      modifies this
      ensures Valid()
      ensures Model() == SessionSpec.Rebuild(old(Model()), language, available)
    {
      RebuildEstablishesInv(Model(), language, available);
      if !available {
        state := Undefined;
        Emit(Initialized(false));
        return;
      }
      if recognizer {
        StopListening();
        Issue([Destroy]);
        recognizer := false;
      }
      assert Model() == Teardown(old(Model()));
      Issue([Create(language)]);
      recognizer := true;
      Emit(Initialized(true));
    }

    /** Start a recognition request (the corrected form, which stops after a failed rebuild). */
    method StartListening(now: int, available: bool)
      requires Valid()
      modifies this
      ensures Valid()
      ensures Model() == SessionSpec.StartListening(old(Model()), now, available)
    {
      ghost var s0 := Model();
      SessionTraces.StartKeepsInv(s0, now, available);
      if now - requestTimestamp < REQUEST_INTERVAL {
        return;
      }
      if !recognizer {
        Rebuild(language, available);
      }
      assert Model() == EnsureRecognizer(s0, available);
      if state == Listening || state == Requested || !recognizer {
        return;
      }
      Accept(now);
    }

    /** Record an accepted request, arm the stuck-request watchdog, mute and start. */
    method Accept(now: int)
      modifies this
      ensures Model() == SessionSpec.Accept(old(Model()), now)
    {
      state := Requested;
      listenDue := listenDue + [now + LISTEN_TIMEOUT];
      sentFinal := false;
      currentText := "";
      requestTimestamp := now;
      MuteStream(true, now);
      Issue([Start]);
    }

    method StopListening()
      requires Valid()
      modifies this
      ensures Valid()
      ensures Model() == SessionSpec.StopListening(old(Model()))
    {
      SessionTraces.StepKeepsInv(Model(), SessionTraces.StopCmd);
      if state == Idle || state == Undefined {
        return;
      }
      if recognizer {
        Issue([Cancel, Stop]);
      }
      Emit(if currentText != "" then FinalResult(currentText) else Cancelled);
      state := Idle;
      currentText := "";
    }

    method DisposeEngine()
      requires Valid()
      modifies this
      ensures Valid()
      ensures Model() == SessionSpec.DisposeEngine(old(Model()))
    {
      if recognizer {
        Issue([Stop, Cancel, Destroy]);
        recognizer := false;
      }
      MuteStream(false, 0);
      state := Undefined;
    }

    method LanguageIsSupported(language: string) returns (r: bool)
      requires supportedLanguages.Some?
      ensures r == SessionSpec.LanguageIsSupported(Model(), language)
    {
      r := language in supportedLanguages.value;
    }

    method SetListener(listener: ListenerId)
      requires Valid()
      modifies this
      ensures Valid()
      ensures Model() == SessionSpec.SetListener(old(Model()), listener)
    {
      this.listener := listener;
    }

    /** Handle the platform's answer to the supported-languages query. */
    method OnLanguageDetails(resultOk: bool, extras: Option<seq<string>>)
      requires Valid()
      modifies this
      ensures Valid()
      ensures Model() == SessionSpec.OnLanguageDetails(old(Model()), resultOk, extras)
    {
      if !resultOk {
        Emit(LangListRetrieved(None));
        return;
      }
      supportedLanguages := if extras.Some? then Some(RemoveFirst(extras.value, EXCLUDED_LANGUAGE)) else None;
      Emit(LangListRetrieved(supportedLanguages));
    }

    method SetRecognitionLanguage(language: string, available: bool)
      requires Valid()
      modifies this
      ensures Valid()
      ensures Model() == SessionSpec.SetRecognitionLanguage(old(Model()), language, available)
    {
      SessionTraces.StepKeepsInv(Model(), SessionTraces.SetLanguageCmd(language, available));
      Rebuild(language, available);
    }

    function EngineCode(): (r: int)
      ensures r == GOOGLE_FREE
    {
      GOOGLE_FREE
    }

    // -------------------------------------------------------------------------------------
    // Recognizer callbacks: delivered only by the live recognizer
    // -------------------------------------------------------------------------------------

    method OnReadyForSpeech(now: int)
      requires Valid() && recognizer
      modifies this
      ensures Valid()
      ensures Model() == SessionSpec.OnReadyForSpeech(old(Model()), now)
    {
      SessionTraces.StepKeepsInv(Model(), SessionTraces.Ready(now));
      MuteStream(true, now);
      Emit(Started);
      state := Listening;
      listenDue := [];
    }

    method OnEndOfSpeech(now: int)
      requires Valid() && recognizer
      modifies this
      ensures Valid()
      ensures Model() == SessionSpec.OnEndOfSpeech(old(Model()), now)
    {
      SessionTraces.StepKeepsInv(Model(), SessionTraces.EndOfSpeech(now));
      MuteStream(true, now);
    }

    method OnError(code: int, now: int)
      requires Valid() && recognizer
      modifies this
      ensures Valid()
      ensures Model() == SessionSpec.OnError(old(Model()), code, now)
    {
      SessionTraces.StepKeepsInv(Model(), SessionTraces.Failure(code, now));
      MuteStream(true, now);
      state := Idle;
      if code == ERROR_BUSY {
        Issue([Cancel]);
      } else if code == ERROR_NO_MATCH {
        Emit(Cancelled);
        return;
      }
      Emit(Error(code));
      listenDue := [];
      noResultsDue := None;
    }

    method OnResults(matches: Option<seq<string>>)
      requires Valid() && recognizer
      modifies this
      ensures Valid()
      ensures Model() == SessionSpec.OnResults(old(Model()), matches)
    {
      SessionTraces.StepKeepsInv(Model(), SessionTraces.Results(matches));
      if sentFinal || state != Listening {
        return;
      }
      state := Idle;
      sentFinal := true;
      noResultsDue := None;
      Emit(FinalResult(FirstOrEmpty(matches)));
      currentText := "";
    }

    method OnPartialResults(matches: Option<seq<string>>, now: int)
      requires Valid() && recognizer
      modifies this
      ensures Valid()
      ensures Model() == SessionSpec.OnPartialResults(old(Model()), matches, now)
    {
      SessionTraces.StepKeepsInv(Model(), SessionTraces.Partial(matches, now));
      if state != Listening {
        return;
      }
      if matches.Some? {
        currentText := Concat(matches.value);
        Emit(PartialResult(currentText));
      }
      noResultsDue := Some(now + NO_RESULTS_TIMEOUT);
    }

    // -------------------------------------------------------------------------------------
    // Timers
    // -------------------------------------------------------------------------------------

    method FireListenWatchdog(now: int)
      requires Valid()
      modifies this
      ensures Valid()
      ensures Model() == SessionSpec.FireListenWatchdog(old(Model()), now)
    {
      SessionTraces.StepKeepsInv(Model(), SessionTraces.ListenTimer(now));
      if listenDue == [] || listenDue[0] > now {
        return;
      }
      listenDue := listenDue[1..];
      if state != Requested {
        return;
      }
      Issue([Cancel, Stop]);
      Emit(Cancelled);
      state := Idle;
    }

    method FireNoResultsWatchdog(now: int)
      requires Valid()
      modifies this
      ensures Valid()
      ensures Model() == SessionSpec.FireNoResultsWatchdog(old(Model()), now)
    {
      SessionTraces.StepKeepsInv(Model(), SessionTraces.NoResultsTimer(now));
      if noResultsDue == None || noResultsDue.value > now {
        return;
      }
      noResultsDue := None;
      if state != Listening || currentText == "" {
        return;
      }
      StopListening();
    }

    method FireUnmute(now: int)
      requires Valid()
      modifies this
      ensures Valid()
      ensures Model() == SessionSpec.FireUnmute(old(Model()), now)
    {
      SessionTraces.StepKeepsInv(Model(), SessionTraces.UnmuteTimer(now));
      if unmuteDue == None || unmuteDue.value > now {
        return;
      }
      unmuteDue := None;
      if audio {
        muted := false;
      }
    }
  }
}
