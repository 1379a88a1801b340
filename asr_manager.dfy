/** The engine manager: it keeps the selected engine id, language and listener, normalises
    missing languages to the default locale tag, and builds, reuses or disposes the engine.
    Work the manager posts to the main thread is applied at once; the platform's answers (the
    default locale tag, whether recognition and the audio service are available) are
    parameters. */
module AsrManager {
  import opened AsrTypes
  import SessionSpec
  import GoogleFree

  /** The display name of an engine id. */
  function EngineToString(id: int): (r: string)
    ensures id == GOOGLE_FREE <==> r == "Google Free"
    ensures id != GOOGLE_FREE <==> r == "undefined"
  {
    if id == GOOGLE_FREE then "Google Free" else "undefined"
  }

  /** The engines this build offers: exactly the ids that have a name. */
  function AvailableEngines(): (r: seq<int>)
    ensures |r| == 1
    ensures forall id :: id in r <==> EngineToString(id) != "undefined"
  {
    [GOOGLE_FREE]
  }

  /** A usable language tag: the given one when it is present and non-empty, otherwise the
      fallback. */
  function Normalize(language: Option<string>, fallback: string): (r: string)
    requires fallback != ""
    ensures r != ""
    ensures language.Some? && language.value != "" ==> r == language.value
    ensures language == None || language == Some("") ==> r == fallback
  {
    if language.Some? && language.value != "" then language.value else fallback
  }

  /** What constructing the engine does: change the language of an engine of the requested
      kind, or else dispose of any engine there is and build one when the id is Google Free. */
  datatype Plan = ChangeLanguage | Replace(dispose: bool, build: bool)

  function ConstructPlan(current: Option<int>, requested: int): (p: Plan)
    ensures p == ChangeLanguage <==> current == Some(requested)
    ensures p.Replace? ==> (p.dispose <==> current.Some?)
    ensures p.Replace? ==> (p.build <==> requested == GOOGLE_FREE)
  {
    if current == Some(requested) then ChangeLanguage
    else Replace(current.Some?, requested == GOOGLE_FREE)
  }

  /** Google Free is the only engine kind, so a new engine is built only when there is no
      engine at all: an existing one is always reused, never replaced. */
  lemma BuildOnlyWithoutEngine(current: Option<int>, requested: int)
    requires current.Some? ==> current.value == GOOGLE_FREE
    requires ConstructPlan(current, requested).Replace?
    requires ConstructPlan(current, requested).build
    ensures current == None
    ensures !ConstructPlan(current, requested).dispose
  {
  }

  /** Destroying the manager disposes of its engine but keeps the reference, and a later start
      request on that engine builds a new recognizer and starts it. */
  lemma {:induction false} DisposedEngineRestarts(s: SessionSpec.Session, now: int)
    requires SessionSpec.Inv(s)
    requires now - s.requestTimestamp >= REQUEST_INTERVAL
    ensures var r := SessionSpec.StartListening(SessionSpec.DisposeEngine(s), now, true);
            r.state == Requested && r.recognizer
            && SessionSpec.Starts(r.calls) == SessionSpec.Starts(s.calls) + 1
  {
    var d := SessionSpec.DisposeEngine(s);
    assert d.requestTimestamp == s.requestTimestamp;
    assert SessionSpec.StartAccepted(d, now, true);
    if s.recognizer {
      SessionSpec.StartsAppend(s.calls, [Stop, Cancel, Destroy]);
      assert SessionSpec.Starts([Stop, Cancel, Destroy]) == 0 by {
        assert [Stop, Cancel, Destroy][..2] == [Stop, Cancel];
        assert [Stop, Cancel][..1] == [Stop];
        assert [Stop][..0] == [];
      }
    }
    assert SessionSpec.Starts(d.calls) == SessionSpec.Starts(s.calls);
  }

  class Asr {
    /** The engine; in the program it is shared by every manager. */
    var engine: GoogleFree.GoogleFreeAsr?
    var asrEngine: int
    var listener: Option<ListenerId>
    var language: Option<string>
    /** The application context has been stored by initialisation. */
    var initialized: bool

    ghost predicate Valid()
      reads this, engine
    {
      && (language.Some? ==> language.value != "")
      && (initialized ==> language.Some?)
      && (engine != null ==> initialized && engine.Valid() && listener == Some(engine.listener))
    }

    /** Building a new engine needs the stored context and a listener. */
    predicate CanBuild()
      reads this
    {
      initialized && listener.Some?
    }

    /** Constructing would build a new engine. */
    predicate WouldBuild()
      reads this
    {
      engine == null && asrEngine == GOOGLE_FREE
    }

    /** The effect of constructing the engine, from the state before to the state after: an
        engine kept under the Google Free id changes language; one kept under another id is
        disposed of and its reference kept; without an engine a Google Free engine is built from
        the stored language and listener, and under another id there stays none. */
    twostate predicate Constructed(audio: bool, available: bool)
      reads this, engine
    {
      && (old(engine) != null && asrEngine == GOOGLE_FREE ==>
            && engine == old(engine) && language.Some?
            && engine.Model() == SessionSpec.SetRecognitionLanguage(old(engine.Model()), language.value, available))
      && (old(engine) != null && asrEngine != GOOGLE_FREE ==>
            engine == old(engine) && engine.Model() == SessionSpec.DisposeEngine(old(engine.Model())))
      && (old(engine) == null && asrEngine == GOOGLE_FREE ==>
            && engine != null && fresh(engine) && language.Some? && listener.Some?
            && engine.Model() == SessionSpec.Construct(language.value, listener.value, audio, available))
      && (old(engine) == null && asrEngine != GOOGLE_FREE ==> engine == null)
    }

    constructor ()
      ensures Valid()
      ensures engine == null && asrEngine == GOOGLE_FREE
      ensures listener == None && language == None && !initialized
    {
      engine := null;
      asrEngine := GOOGLE_FREE;
      listener := None;
      language := None;
      initialized := false;
    }

    /** The stored language, replaced by the default locale tag when missing; never empty. */
    method GetCurrentLanguage(localeTag: string) returns (r: string)
      requires Valid()
      requires localeTag != ""
      modifies this`language
      ensures Valid()
      ensures r != "" && language == Some(r)
      ensures r == Normalize(old(language), localeTag)
    {
      if language == None || language == Some("") {
        language := Some(localeTag);
      }
      r := language.value;
    }

    /** Store the context, engine id and language (a missing one taken from the current
        language), then construct the engine. */
    method Initialize(language: Option<string>, asrEngine: int, localeTag: string,
                      audio: bool, available: bool)
      requires Valid()
      requires localeTag != ""
      requires engine == null && asrEngine == GOOGLE_FREE ==> listener.Some?
      modifies this, engine
      ensures Valid()
      ensures initialized && this.asrEngine == asrEngine && listener == old(listener)
      ensures this.language == Some(Normalize(language, Normalize(old(this.language), localeTag)))
      ensures Constructed(audio, available)
    {
      var l: string;
      if language.Some? && language.value != "" {
        l := language.value;
      } else {
        l := GetCurrentLanguage(localeTag);
      }
      initialized := true;
      this.asrEngine := asrEngine;
      this.language := Some(l);
      ConstructEngine(audio, available);
    }

    /** Change the language; a missing one is taken from the current language. An unchanged
        language does nothing; a new one is stored and the engine constructed again. */
    method SetLanguage(language: Option<string>, localeTag: string, audio: bool, available: bool)
      requires Valid()
      requires localeTag != ""
      requires this.language.Some? || language == None || language == Some("")
      requires (this.language.Some? && Normalize(language, this.language.value) != this.language.value
                && WouldBuild()) ==> CanBuild()
      modifies this, engine
      ensures Valid()
      ensures asrEngine == old(asrEngine) && listener == old(listener) && initialized == old(initialized)
      ensures this.language == Some(Normalize(language, Normalize(old(this.language), localeTag)))
      ensures this.language == old(this.language) || old(this.language) == None ==>
        engine == old(engine) && (engine != null ==> engine.Model() == old(engine.Model()))
      ensures old(this.language).Some? && this.language != old(this.language) ==>
        Constructed(audio, available)
    {
      var l: string;
      if language.Some? && language.value != "" {
        l := language.value;
      } else {
        l := GetCurrentLanguage(localeTag);
      }
      if this.language == Some(l) {
        return;
      }
      this.language := Some(l);
      ConstructEngine(audio, available);
    }

    /** Store the listener, and hand it to the engine when there is one. */
    method SetListener(listener: ListenerId)
      requires Valid()
      modifies this, engine
      ensures Valid()
      ensures this.listener == Some(listener) && engine == old(engine)
      ensures language == old(language) && asrEngine == old(asrEngine) && initialized == old(initialized)
      ensures engine != null ==> engine.Model() == SessionSpec.SetListener(old(engine.Model()), listener)
    {
      this.listener := Some(listener);
      if engine != null {
        engine.SetListener(listener);
      }
    }

    /** Select an engine id. The current id does nothing; another is stored and the engine
        constructed again. */
    method SetEngine(asrEngine: int, audio: bool, available: bool)
      requires Valid()
      requires asrEngine != this.asrEngine && engine == null && asrEngine == GOOGLE_FREE ==> CanBuild()
      modifies this, engine
      ensures Valid()
      ensures this.asrEngine == asrEngine
      ensures listener == old(listener) && language == old(language) && initialized == old(initialized)
      ensures asrEngine == old(this.asrEngine) ==>
        engine == old(engine) && (engine != null ==> engine.Model() == old(engine.Model()))
      ensures asrEngine != old(this.asrEngine) ==> Constructed(audio, available)
    {
      if this.asrEngine == asrEngine {
        return;
      }
      this.asrEngine := asrEngine;
      ConstructEngine(audio, available);
    }

    /** Forward a start request to the engine, if there is one. */
    method StartListening(now: int, available: bool)
      requires Valid()
      modifies engine
      ensures Valid()
      ensures engine != null ==>
        engine.Model() == SessionSpec.StartListening(old(engine.Model()), now, available)
    {
      if engine == null {
        return;
      }
      engine.StartListening(now, available);
    }

    /** Forward a stop request to the engine, if there is one. */
    method StopListening()
      requires Valid()
      modifies engine
      ensures Valid()
      ensures engine != null ==> engine.Model() == SessionSpec.StopListening(old(engine.Model()))
    {
      if engine == null {
        return;
      }
      engine.StopListening();
    }

    /** False without an engine; otherwise whether the engine lists the language. */
    method LanguageIsSupported(language: string) returns (r: bool)
      requires engine != null ==> engine.supportedLanguages.Some?
      ensures r <==> engine != null && language in engine.supportedLanguages.value
    {
      if engine == null {
        return false;
      }
      r := engine.LanguageIsSupported(language);
    }

    /** False without an engine; otherwise the engine sends its language query (answered later
        through the engine's language-details handler) and the result is true. */
    method GetSupportedLanguages() returns (r: bool)
      ensures r <==> engine != null
    {
      r := engine != null;
    }

    /** False without an engine; otherwise whether recognition is available on the device. */
    method GetAvailability(available: bool) returns (r: bool)
      ensures r <==> engine != null && available
    {
      r := engine != null && available;
    }

    /** Dispose of the engine, if there is one; the reference itself is kept. */
    method Destroy()
      requires Valid()
      modifies engine
      ensures Valid()
      ensures engine != null ==> engine.Model() == SessionSpec.DisposeEngine(old(engine.Model()))
    {
      if engine != null {
        engine.DisposeEngine();
      }
    }

    /** Reuse an engine of the selected kind with the current language, or dispose of any engine
        there is and build a Google Free engine when that is the selected id. Another id leaves
        the disposed engine in place. */
    method ConstructEngine(audio: bool, available: bool)
      requires Valid()
      requires WouldBuild() ==> CanBuild()
      modifies this, engine
      ensures Valid()
      ensures asrEngine == old(asrEngine) && listener == old(listener)
      ensures language == old(language) && initialized == old(initialized)
      ensures Constructed(audio, available)
    {
      var current := if engine != null then Some(engine.EngineCode()) else None;
      var plan := ConstructPlan(current, asrEngine);
      match plan
      case ChangeLanguage =>
        engine.SetRecognitionLanguage(language.value, available);
      case Replace(dispose, build) =>
        if dispose {
          engine.DisposeEngine();
        }
        if build {
          engine := new GoogleFree.GoogleFreeAsr(language.value, listener.value, audio, available);
        }
    }
  }
}
