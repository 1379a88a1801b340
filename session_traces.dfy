/** Runs of the recognition session: any interleaving of commands, recognizer callbacks and timer
    firings, and what holds across them. */
module SessionTraces {
  import opened AsrTypes
  import opened Matches
  import opened SessionSpec

  /** One thing that can happen to an engine. */
  datatype Input =
    | StartCmd(now: int, available: bool)
    | StopCmd
    | DisposeCmd
    | SetLanguageCmd(language: string, available: bool)
    | SetListenerCmd(listener: ListenerId)
    | LanguageDetails(resultOk: bool, extras: Option<seq<string>>)
    | Ready(now: int)
    | EndOfSpeech(now: int)
    | Partial(matches: Option<seq<string>>, now: int)
    | Results(matches: Option<seq<string>>)
    | Failure(code: int, now: int)
    | ListenTimer(now: int)
    | NoResultsTimer(now: int)
    | UnmuteTimer(now: int)

  /** Inputs that only a live recognizer produces. */
  predicate FromRecognizer(i: Input)
  {
    i.Ready? || i.EndOfSpeech? || i.Partial? || i.Results? || i.Failure?
  }

  /** The session after one input. A recognizer callback that arrives while no recognizer
      exists is dropped, and so is a stuck-request watchdog that would dereference a missing
      recognizer (a session satisfying Inv never has one). */
  function Step(s: Session, i: Input): (r: Session)
  {
    if FromRecognizer(i) && !s.recognizer then s
    else
      match i
      case StartCmd(now, available) => StartListening(s, now, available)
      case StopCmd => StopListening(s)
      case DisposeCmd => DisposeEngine(s)
      case SetLanguageCmd(language, available) => SetRecognitionLanguage(s, language, available)
      case SetListenerCmd(listener) => SetListener(s, listener)
      case LanguageDetails(ok, extras) => OnLanguageDetails(s, ok, extras)
      case Ready(now) => OnReadyForSpeech(s, now)
      case EndOfSpeech(now) => OnEndOfSpeech(s, now)
      case Partial(matches, now) => OnPartialResults(s, matches, now)
      case Results(matches) => OnResults(s, matches)
      case Failure(code, now) => OnError(s, code, now)
      case ListenTimer(now) =>
        if s.state == Requested && !s.recognizer then s else FireListenWatchdog(s, now)
      case NoResultsTimer(now) => FireNoResultsWatchdog(s, now)
      case UnmuteTimer(now) => FireUnmute(s, now)
  }

  /** The session after a sequence of inputs. */
  function Run(s: Session, inputs: seq<Input>): Session
    decreases |inputs|
  {
    if inputs == [] then s else Run(Step(s, inputs[0]), inputs[1..])
  }

  // ---------------------------------------------------------------------------------------
  // The invariant is kept by every input
  // ---------------------------------------------------------------------------------------

  lemma AcceptKeepsInv(s: Session, now: int)
    requires Inv(s) && !Busy(s) && s.recognizer
    requires now - s.requestTimestamp >= REQUEST_INTERVAL
    ensures Inv(Accept(s, now))
  {
    var r := Accept(s, now);
    var d := s.listenDue;
    assert r.listenDue == d + [now + LISTEN_TIMEOUT];
    forall i, j | 0 <= i < j < |r.listenDue| ensures r.listenDue[i] < r.listenDue[j] {
      if j < |d| {
        assert r.listenDue[i] == d[i] && r.listenDue[j] == d[j];
      } else {
        assert r.listenDue[i] == d[i] <= s.requestTimestamp + LISTEN_TIMEOUT;
      }
    }
    forall i | 0 <= i < |r.listenDue| ensures r.listenDue[i] <= r.requestTimestamp + LISTEN_TIMEOUT {
      if i < |d| {
        assert r.listenDue[i] == d[i];
      }
    }
  }

  lemma StartKeepsInv(s: Session, now: int, available: bool)
    requires Inv(s)
    ensures Inv(StartListening(s, now, available))
  {
    if now - s.requestTimestamp >= REQUEST_INTERVAL {
      var s1 := EnsureRecognizer(s, available);
      assert Inv(s1);
      if !Busy(s1) && s1.recognizer {
        AcceptKeepsInv(s1, now);
      }
    }
  }

  lemma FireListenKeepsInv(s: Session, now: int)
    requires Inv(s)
    requires s.state == Requested ==> s.recognizer
    ensures Inv(FireListenWatchdog(s, now))
  {
    if ListenDue(s, now) {
      var t := s.listenDue[1..];
      assert forall i :: 0 <= i < |t| ==> t[i] == s.listenDue[i + 1];
    }
  }

  lemma CallbackKeepsInv(s: Session, i: Input)
    requires Inv(s) && FromRecognizer(i) && s.recognizer
    ensures Inv(Step(s, i))
  {
  }

  lemma StepKeepsInv(s: Session, i: Input)
    requires Inv(s)
    ensures Inv(Step(s, i))
  {
    if FromRecognizer(i) && s.recognizer {
      CallbackKeepsInv(s, i);
    } else if i.StartCmd? {
      StartKeepsInv(s, i.now, i.available);
    } else if i.ListenTimer? {
      FireListenKeepsInv(s, i.now);
    }
  }

  /** The invariant holds after every run from a session that satisfies it. */
  lemma {:induction false} RunKeepsInv(s: Session, inputs: seq<Input>)
    requires Inv(s)
    ensures Inv(Run(s, inputs))
    decreases |inputs|
  {
    if inputs != [] {
      StepKeepsInv(s, inputs[0]);
      RunKeepsInv(Step(s, inputs[0]), inputs[1..]);
    }
  }

  /** Every engine the constructor builds, after any run, satisfies the invariant. */
  lemma ReachableSatisfiesInv(language: string, listener: ListenerId, audio: bool, available: bool,
                              inputs: seq<Input>)
    ensures Inv(Run(Construct(language, listener, audio, available), inputs))
    ensures var r := Run(Construct(language, listener, audio, available), inputs);
            r.state != Undefined ==> r.recognizer
  {
    RunKeepsInv(Construct(language, listener, audio, available), inputs);
  }

  // ---------------------------------------------------------------------------------------
  // Minimum interval between accepted starts
  // ---------------------------------------------------------------------------------------

  /** No input but a start moves the request timestamp or clears the delivered-final flag. */
  lemma StepWithoutStart(s: Session, i: Input)
    requires !i.StartCmd?
    ensures Step(s, i).requestTimestamp == s.requestTimestamp
    ensures s.sentFinal ==> Step(s, i).sentFinal
  {
    if !(FromRecognizer(i) && !s.recognizer) {
      match i
      case NoResultsTimer(now) =>
        if NoResultsDue(s, now) {
          assert StopListening(s.(noResultsDue := None)).sentFinal == s.sentFinal;
        }
      case _ =>
    }
  }

  /** Only an accepted start moves the request timestamp, and a delivered final stays recorded
      until the next accepted start. */
  lemma {:induction false} RunWithoutAcceptedStart(s: Session, inputs: seq<Input>)
    requires NoAcceptedStart(s, inputs)
    ensures Run(s, inputs).requestTimestamp == s.requestTimestamp
    ensures s.sentFinal ==> Run(s, inputs).sentFinal
    decreases |inputs|
  {
    if inputs != [] {
      StepKeepsFinal(s, inputs[0]);
      RunWithoutAcceptedStart(Step(s, inputs[0]), inputs[1..]);
    }
  }

  /** A start issued less than the minimum interval after an accepted one, whatever happened
      in between short of another accepted start, changes nothing. */
  lemma SecondStartIgnored(s: Session, t: int, available: bool, between: seq<Input>,
                           t2: int, available2: bool)
    requires StartAccepted(s, t, available)
    requires NoAcceptedStart(StartListening(s, t, available), between)
    requires t2 - t < REQUEST_INTERVAL
    ensures var m := Run(StartListening(s, t, available), between);
            Step(m, StartCmd(t2, available2)) == m
  {
    RunWithoutAcceptedStart(StartListening(s, t, available), between);
  }

  // ---------------------------------------------------------------------------------------
  // At most one final result from the recognizer per accepted start
  // ---------------------------------------------------------------------------------------

  /** Whether a final-results callback is acted upon in this session. */
  predicate ResultsAccepted(s: Session)
  {
    s.recognizer && s.state == Listening && !s.sentFinal
  }

  /** Number of final-results callbacks in a run that are acted upon. */
  function AcceptedResults(s: Session, inputs: seq<Input>): nat
    decreases |inputs|
  {
    if inputs == [] then 0
    else
      (if inputs[0].Results? && ResultsAccepted(s) then 1 else 0)
      + AcceptedResults(Step(s, inputs[0]), inputs[1..])
  }

  /** A final-results callback that is not acted upon changes nothing; one that is ends the
      request: idle, the final flag set, and exactly one final result delivered. */
  lemma ResultsStep(s: Session, matches: Option<seq<string>>)
    ensures !ResultsAccepted(s) ==> Step(s, Results(matches)) == s
    ensures ResultsAccepted(s) ==>
      var r := Step(s, Results(matches));
      && r.state == Idle && r.sentFinal
      && r.delivered == s.delivered + [Delivery(s.listener, FinalResult(FirstOrEmpty(matches)))]
  {
  }

  /** Only an accepted start moves the request timestamp or clears the delivered-final flag. */
  lemma StepKeepsFinal(s: Session, i: Input)
    requires i.StartCmd? ==> !StartAccepted(s, i.now, i.available)
    ensures Step(s, i).requestTimestamp == s.requestTimestamp
    ensures s.sentFinal ==> Step(s, i).sentFinal
  {
    if !i.StartCmd? {
      StepWithoutStart(s, i);
    }
  }

  /** No start command of the run is accepted at the point where it arrives; starts that are
      too early or that find the engine busy may occur. */
  predicate NoAcceptedStart(s: Session, inputs: seq<Input>)
    decreases |inputs|
  {
    || inputs == []
    || (&& (inputs[0].StartCmd? ==> !StartAccepted(s, inputs[0].now, inputs[0].available))
        && NoAcceptedStart(Step(s, inputs[0]), inputs[1..]))
  }

  /** Between two accepted starts the recognizer's final results are acted on at most once, and
      not at all once a final was delivered for the current request. */
  lemma {:induction false} ResultsAtMostOnce(s: Session, inputs: seq<Input>)
    requires NoAcceptedStart(s, inputs)
    ensures AcceptedResults(s, inputs) <= (if s.sentFinal then 0 else 1)
    decreases |inputs|
  {
    if inputs != [] {
      var s1 := Step(s, inputs[0]);
      StepKeepsFinal(s, inputs[0]);
      if inputs[0].Results? {
        ResultsStep(s, inputs[0].matches);
      }
      ResultsAtMostOnce(s1, inputs[1..]);
    }
  }

  // ---------------------------------------------------------------------------------------
  // Watchdogs
  // ---------------------------------------------------------------------------------------

  /** A request still waiting LISTEN_TIMEOUT after it was accepted has a watchdog due, and
      firing it cancels the request: idle, the recognizer cancelled and stopped, and exactly one
      cancellation reported. */
  lemma StuckRequestCancelled(s: Session, now: int)
    requires Inv(s)
    requires s.state == Requested
    requires now >= s.requestTimestamp + LISTEN_TIMEOUT
    ensures ListenDue(s, now)
    ensures var r := FireListenWatchdog(s, now);
            && r.state == Idle
            && r.calls == s.calls + [Cancel, Stop]
            && r.delivered == s.delivered + [Delivery(s.listener, Cancelled)]
  {
    assert s.listenDue[0] <= s.listenDue[|s.listenDue| - 1];
  }

  /** A transcript left without further partial results is delivered as final once the
      no-results watchdog fires: the joined partial matches, whatever list they came in. */
  lemma SilenceAcceptsTranscript(s: Session, matches: seq<string>, t: int, now: int)
    requires s.state == Listening && s.recognizer && Concat(matches) != ""
    requires now >= t + NO_RESULTS_TIMEOUT
    ensures var p := Step(s, Partial(Some(matches), t));
            var r := FireNoResultsWatchdog(p, now);
            && r.state == Idle && r.currentText == ""
            && r.delivered == s.delivered + [Delivery(s.listener, PartialResult(Concat(matches))),
                                             Delivery(s.listener, FinalResult(Concat(matches)))]
  {
  }

  /** Partial results that grow by one match at a time: when the next list is the previous one
      with a match appended, the new transcript is the previous one followed by that match, and
      that is what is reported. */
  lemma PartialExtendsTranscript(s: Session, matches: seq<string>, m: string, t1: int, t2: int)
    requires s.state == Listening && s.recognizer
    ensures var p := Step(s, Partial(Some(matches), t1));
            var q := Step(p, Partial(Some(matches + [m]), t2));
            && q.currentText == p.currentText + m
            && q.delivered == p.delivered + [Delivery(s.listener, PartialResult(p.currentText + m))]
  {
    ConcatAppend(matches, [m]);
    assert Concat([m]) == m + Concat([]);
  }

  /** When every partial match is empty the transcript stays empty, so a stop reports a
      cancellation rather than a final result. */
  lemma EmptyMatchesStopCancels(s: Session, matches: seq<string>, t: int)
    requires s.state == Listening && s.recognizer
    requires forall i :: 0 <= i < |matches| ==> matches[i] == ""
    ensures var r := StopListening(Step(s, Partial(Some(matches), t)));
            && r.state == Idle
            && r.delivered == s.delivered + [Delivery(s.listener, PartialResult("")),
                                             Delivery(s.listener, Cancelled)]
  {
    ConcatEmpty(matches);
  }

  /** The engine's stream is never left muted without a pending automatic unmute, and once that
      is due, firing it unmutes. */
  lemma MutingIsBounded(s: Session, now: int)
    requires Inv(s) && s.muted
    requires now >= s.unmuteDue.value
    ensures !FireUnmute(s, now).muted
  {
  }

  /** A "no match" error leaves the stuck-request watchdog of its request pending, so that
      watchdog can cancel the next request before that request's own timeout has passed:
      requests accepted at 2000 and 3500, the second cancelled at 5000. */
  lemma StaleWatchdogCancelsLaterRequest(language: string, listener: ListenerId)
    ensures var s1 := Step(Construct(language, listener, true, true), StartCmd(2000, true));
            var s2 := Step(s1, Failure(ERROR_NO_MATCH, 2100));
            var s3 := Step(s2, StartCmd(3500, true));
            var s4 := Step(s3, ListenTimer(5000));
            && s3.state == Requested && s3.requestTimestamp == 3500
            && s4.state == Idle
            && s4.delivered == s3.delivered + [Delivery(listener, Cancelled)]
            && 5000 < s3.requestTimestamp + LISTEN_TIMEOUT
  {
    var s0 := Construct(language, listener, true, true);
    var s1 := Step(s0, StartCmd(2000, true));
    assert s1.state == Requested && s1.listenDue == [5000];
    var s2 := Step(s1, Failure(ERROR_NO_MATCH, 2100));
    assert s2.state == Idle && s2.listenDue == [5000];
    var s3 := Step(s2, StartCmd(3500, true));
    assert s3.listenDue == [5000, 6500];
  }

  /** A stop while a request is still waiting also leaves its stuck-request watchdog pending,
      with the same effect on the next request: requests accepted at 2000 and 3500 with a stop
      between them, the second cancelled at 5000. */
  lemma StaleWatchdogAfterStop(language: string, listener: ListenerId)
    ensures var s1 := Step(Construct(language, listener, true, true), StartCmd(2000, true));
            var s2 := Step(s1, StopCmd);
            var s3 := Step(s2, StartCmd(3500, true));
            var s4 := Step(s3, ListenTimer(5000));
            && s3.state == Requested && s3.requestTimestamp == 3500
            && s4.state == Idle
            && s4.calls == s3.calls + [Cancel, Stop]
            && s4.delivered == s3.delivered + [Delivery(listener, Cancelled)]
            && 5000 < s3.requestTimestamp + LISTEN_TIMEOUT
  {
    var s0 := Construct(language, listener, true, true);
    var s1 := Step(s0, StartCmd(2000, true));
    assert s1.state == Requested && s1.listenDue == [5000];
    var s2 := Step(s1, StopCmd);
    assert s2.state == Idle && s2.listenDue == [5000];
    var s3 := Step(s2, StartCmd(3500, true));
    assert s3.listenDue == [5000, 6500];
  }

  // ---------------------------------------------------------------------------------------
  // Disposal and the language list
  // ---------------------------------------------------------------------------------------

  /** Disposing twice is the same as disposing once. */
  lemma DisposeIdempotent(s: Session)
    ensures DisposeEngine(DisposeEngine(s)) == DisposeEngine(s)
  {
  }

  /** After a successful language query, a tag other than the excluded one is supported exactly
      when the platform listed it; the excluded tag only when the platform listed it twice. */
  lemma SupportedAfterRetrieval(s: Session, extras: seq<string>, language: string)
    ensures var r := OnLanguageDetails(s, true, Some(extras));
            && r.supportedLanguages.Some?
            && (language != EXCLUDED_LANGUAGE ==>
                  (LanguageIsSupported(r, language) <==> language in extras))
            && (LanguageIsSupported(r, EXCLUDED_LANGUAGE) <==>
                  multiset(extras)[EXCLUDED_LANGUAGE] >= 2)
  {
    RemoveFirstMultiset(extras, EXCLUDED_LANGUAGE);
    if language != EXCLUDED_LANGUAGE {
      RemoveFirstKeepsOthers(extras, EXCLUDED_LANGUAGE, language);
    }
    var kept := RemoveFirst(extras, EXCLUDED_LANGUAGE);
    assert EXCLUDED_LANGUAGE in kept <==> multiset(kept)[EXCLUDED_LANGUAGE] > 0;
  }
}
