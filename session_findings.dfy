/** The start request exactly as the engine writes it, where a failed rebuild does not stop the
    request: the request goes on to call the recognizer that could not be built. */
module SessionFindings {
  import opened AsrTypes
  import opened SessionSpec

  /** How a start request ends: normally, or by dereferencing an absent recognizer (the session
      as it was at that moment). */
  datatype StartOutcome = Completed(session: Session) | NullRecognizer(session: Session)

  /** The start request as written: after a rebuild that could not create a recognizer, the
      request is recorded, the watchdog armed and the stream muted, and then the absent
      recognizer is asked to start. It ends that way exactly when the interval has passed, no
      recognizer exists and recognition is unavailable; in every other case it agrees with the
      corrected StartListening. */
  function StartListeningAsWritten(s: Session, now: int, available: bool): (r: StartOutcome)
    ensures r.NullRecognizer? <==>
      now - s.requestTimestamp >= REQUEST_INTERVAL && !s.recognizer && !available
    ensures r.Completed? ==> r.session == StartListening(s, now, available)
    ensures r.NullRecognizer? ==> r.session.state == Requested && !r.session.recognizer
  {
    if now - s.requestTimestamp < REQUEST_INTERVAL then Completed(s)
    else
      var s1 := EnsureRecognizer(s, available);
      if Busy(s1) then Completed(s1)
      else if s1.recognizer then Completed(Accept(s1, now))
      else
        var s2 := s1.(state := Requested, listenDue := s1.listenDue + [now + LISTEN_TIMEOUT],
                      sentFinal := false, currentText := "", requestTimestamp := now);
        NullRecognizer(Mute(s2, now))
  }

  /** On a device without speech recognition the constructor leaves no recognizer, and the first
      start request then dereferences it. */
  lemma StartOnUnavailableDeviceFails(language: string, listener: ListenerId, audio: bool)
    ensures StartListeningAsWritten(Construct(language, listener, audio, false),
                                    REQUEST_INTERVAL, false).NullRecognizer?
  {
  }

  /** The corrected request on such a device ends with the failed rebuild: the engine is
      undefined, a failed initialization is reported, and no start call is issued. */
  lemma CorrectedStartOnUnavailableDevice(s: Session, now: int)
    requires !s.recognizer
    requires now - s.requestTimestamp >= REQUEST_INTERVAL
    ensures var r := StartListening(s, now, false);
            && r.state == Undefined && !r.recognizer
            && r.delivered == s.delivered + [Delivery(s.listener, Initialized(false))]
            && Starts(r.calls) == Starts(s.calls)
  {
  }
}
