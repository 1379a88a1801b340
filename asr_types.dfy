/** Values shared by the recognition engine and its manager: the engine states, the engine
    identifiers, the events delivered to a listener and the calls issued to the platform
    recognizer. */
module AsrTypes {

  datatype Option<+T> = None | Some(value: T)

  /** The lifecycle state of a recognition engine. */
  datatype EngineState =
    | Undefined   // no usable recognizer: only configuration is meaningful
    | Idle        // recognizer ready, no request in flight
    | Requested   // start issued, waiting for the recognizer to report readiness
    | Listening   // recognizer started: partial and final results may arrive

  /** Engine identifier of the Google Free engine, the only identifier defined. */
  const GOOGLE_FREE: int := 0

  /** Minimum interval between two accepted start requests, in milliseconds. */
  const REQUEST_INTERVAL: int := 1500
  /** Delay of the "stuck request" watchdog armed by an accepted start. */
  const LISTEN_TIMEOUT: int := 3000
  /** Delay of the "no further partial results" watchdog re-armed by every partial result. */
  const NO_RESULTS_TIMEOUT: int := 3000
  /** Delay after which a muted stream is unmuted again. */
  const UNMUTE_DELAY: int := 900

  /** Recognizer error code for "no match": reported as a cancellation. */
  const ERROR_NO_MATCH: int := 7
  /** Recognizer error code for "recognizer busy": the request is cancelled. */
  const ERROR_BUSY: int := 8

  /** The language tag that the recognizer's language list carries but that is never offered. */
  const EXCLUDED_LANGUAGE: string := "mk-MK"

  /** Identity of a registered listener. */
  type ListenerId = nat

  /** One callback of the listener interface. */
  datatype Event =
    | Initialized(success: bool)
    | Started
    | Cancelled
    | FinalResult(text: string)
    | PartialResult(text: string)
    | Error(code: int)
    | LangListRetrieved(languages: Option<seq<string>>)

  /** An event together with the listener it was delivered to. */
  datatype Delivery = Delivery(to: ListenerId, event: Event)

  /** A call issued to the platform speech recognizer. */
  datatype RecognizerCall =
    | Create(language: string)
    | Start
    | Stop
    | Cancel
    | Destroy
}
