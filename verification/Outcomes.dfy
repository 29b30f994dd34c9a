/** How a request ends, and the ways there from dispatch. */
module Outcomes {
  datatype Status = Ok | UpstreamError | UpstreamTimeout | Cancelled

  /** How a request ends: a usage row (finish), or a rejection without one. */
  datatype Outcome = Finish(status: Status, http: int) | Rejected(http: int)

  /** The ways out of dispatch. */
  datatype Branch =
    | NoAddress
    | EncodeFailed
    | BuildFailed
    | CallFailed(clientGone: bool, deadline: bool, timeout: bool)
    | Answered5xx
    | Answered4xx(code: int)
    | Streamed(status: Status, http: int)
    | BodyFailed(clientGone: bool, timeout: bool)
    | Buffered(code: int)

  function OutcomeOf(b: Branch): Outcome {
    match b
    case NoAddress => Finish(UpstreamError, 503)
    case EncodeFailed => Rejected(500)
    case BuildFailed => Rejected(500)
    case CallFailed(gone, deadline, timeout) =>
      if gone && !deadline then Finish(Cancelled, 499)
      else if timeout || deadline then Finish(UpstreamTimeout, 504)
      else Finish(UpstreamError, 502)
    case Answered5xx => Finish(UpstreamError, 502)
    case Answered4xx(code) => Finish(Ok, code)
    case Streamed(status, http) => Finish(status, http)
    case BodyFailed(gone, timeout) =>
      if gone then Finish(Cancelled, 499)
      else if timeout then Finish(UpstreamTimeout, 504)
      else Finish(UpstreamError, 502)
    case Buffered(code) => Finish(Ok, code)
  }

  /** The outcome of a request that gets no slot. */
  function LostOutcome(clientGone: bool, up: bool): Outcome {
    if clientGone then Finish(Cancelled, 499) else if !up then Rejected(503) else Rejected(429)
  }

  const DOWN: Outcome := Rejected(503)

  /** What the parts of dispatch can come to: StreamPump and Dialect promise no more than
      this of a stream and a buffered body. */
  predicate Possible(b: Branch) {
    match b
    case Answered4xx(code) => 400 <= code < 500
    case Buffered(code) => code < 400
    case Streamed(status, http) =>
      match status {
        case Ok => http == 200
        case Cancelled => http == 499
        case UpstreamTimeout => http == 504 || http == 200
        case UpstreamError => http == 502 || http == 200
      }
    case _ => true
  }

  /** An outcome that says one thing: the status of a row goes with its HTTP code, and a
      rejection with one of its five codes. */
  predicate Sensible(o: Outcome) {
    match o
    case Rejected(http) => http in {400, 404, 429, 500, 503}
    case Finish(status, http) =>
      match status
      case Ok => http < 500
      case Cancelled => http == 499
      case UpstreamTimeout => http == 504 || http == 200
      case UpstreamError => http == 502 || http == 503 || http == 200
  }

  // ----- what an outcome tells ---------------------------------------------------------------

  /** The server answered below 500, and all that had to follow came through. */
  predicate WentWell(b: Branch, code: int) {
    b == Answered4xx(code) || b == Buffered(code) || b == Streamed(Ok, code)
  }

  predicate ClientLeft(b: Branch) {
    || (b.CallFailed? && b.clientGone && !b.deadline)
    || (b.BodyFailed? && b.clientGone)
    || b == Streamed(Cancelled, 499)
  }

  predicate TimedOut(b: Branch, code: int) {
    || (b.CallFailed? && (b.deadline || (b.timeout && !b.clientGone)) && code == 504)
    || (b == BodyFailed(false, true) && code == 504)
    || b == Streamed(UpstreamTimeout, code)
  }

  predicate Broke(b: Branch, code: int) {
    || (b == NoAddress && code == 503)
    || (b in {Answered5xx, CallFailed(false, false, false), BodyFailed(false, false)} && code == 502)
    || b == Streamed(UpstreamError, code)
  }

  /** Each way out of dispatch is of one of these kinds, and the outcome says of which. */
  lemma OutcomeSaysHow(b: Branch, o: Outcome)
    requires Possible(b)
    ensures OutcomeOf(b) == o <==>
      match o
      case Rejected(http) => http == 500 && b in {EncodeFailed, BuildFailed}
      case Finish(Ok, http) => WentWell(b, http)
      case Finish(Cancelled, http) => http == 499 && ClientLeft(b)
      case Finish(UpstreamTimeout, http) => TimedOut(b, http)
      case Finish(UpstreamError, http) => Broke(b, http)
  {
  }
}
