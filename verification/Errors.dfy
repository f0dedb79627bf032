/** The sentinel errors of the two HTTP clients and the engine's retry verdicts. */
module Errors {
  import opened Wrappers

  /** internal/bookorbit/client.go:34-75, plus the context errors. */
  datatype BookOrbitError =
    | Unauthorized
    | BadRequest
    | UnsupportedEndpoint
    | BookGone
    | RateLimited
    | Server
    | Network
    | Malformed
    | BodyTooLarge
    | Cancelled
    | Unclassified

  /** internal/readest/client.go:30-50 and internal/readest/auth.go:26-43. */
  datatype ReadestError =
    | SyncUnauthorized
    | SyncBadRequest
    | SyncRateLimited
    | SyncServer
    | SyncNetwork
    | SyncMalformed
    | SyncCancelled
    | InvalidCredentials
    | InvalidRefreshToken
    | AuthNetwork
    | AuthMalformed
    | AuthRateLimited
    | PersistFailed

  datatype Outcome = OutcomeSuccess | OutcomeRetry | OutcomeFatal | OutcomeSkip

  function ClassifyReadest<T>(r: Result<T, ReadestError>): Outcome {
    match r
    case Ok(_) => OutcomeSuccess
    case Err(e) =>
      match e
      case SyncCancelled => OutcomeFatal
      case SyncUnauthorized => OutcomeFatal
      case SyncBadRequest => OutcomeSkip
      case SyncMalformed => OutcomeSkip
      case _ => OutcomeRetry
  }

  function ClassifyBookOrbit<T>(r: Result<T, BookOrbitError>): Outcome {
    match r
    case Ok(_) => OutcomeSuccess
    case Err(e) =>
      match e
      case Cancelled => OutcomeFatal
      case Unauthorized => OutcomeFatal
      case BadRequest => OutcomeSkip
      case Malformed => OutcomeSkip
      case UnsupportedEndpoint => OutcomeSkip
      case BodyTooLarge => OutcomeSkip
      case _ => OutcomeRetry
  }

  /** The status endpoint's own classifier: a gone book is final, a malformed body is not. */
  function ClassifyBookOrbitStatus<T>(r: Result<T, BookOrbitError>): Outcome {
    match r
    case Ok(_) => OutcomeSuccess
    case Err(e) =>
      match e
      case Cancelled => OutcomeFatal
      case Unauthorized => OutcomeFatal
      case BookGone => OutcomeSkip
      case BadRequest => OutcomeSkip
      case _ => OutcomeRetry
  }
}
