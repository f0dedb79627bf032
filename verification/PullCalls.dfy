/** Client.PullBooks with its single forced refresh, and the engine's retries around it, as functions of the answers
    (internal/readest/client.go:96-178, internal/sync/engine.go:725-758). */
module PullCalls {
  import opened Wrappers
  import opened Errors
  import opened Readest
  import opened Retry
  import opened TokenCalls

  /** How one GET ends; `deniedBody` says whether an error body reads "Not authenticated". */
  datatype SyncAnswer =
    | NoSyncAnswer(cancelled: bool)
    | Books(rows: seq<BookRow>)
    | BadBooks
    | SyncStatus(code: int, deniedBody: bool)

  datatype Request = Request(since: int, bearer: string)

  /** isAuthFailure */
  predicate Rejected(a: SyncAnswer) {
    a.SyncStatus? && (a.code == 401 || a.code == 403 || a.deniedBody)
  }

  /** classifySyncStatus */
  function SyncStatusError(code: int): ReadestError {
    if code == 400 then SyncBadRequest
    else if code == 429 then SyncRateLimited
    else if 500 <= code <= 599 then SyncServer
    else SyncNetwork
  }

  /** pull */
  function PullResult(a: SyncAnswer): Result<seq<BookRow>, ReadestError> {
    match a
    case NoSyncAnswer(cancelled) => Err(if cancelled then SyncCancelled else SyncNetwork)
    case Books(rows) => Ok(rows)
    case BadBooks => Err(SyncMalformed)
    case SyncStatus(code, _) => if Rejected(a) then Err(SyncUnauthorized) else Err(SyncStatusError(code))
  }

  /** Everything a pull can meet: what the authenticator can, and the n-th answer of the sync API. */
  datatype PullWorld = PullWorld(auth: Outside, answers: nat -> SyncAnswer)

  /** Whether the pause after the k-th attempt is cut short. */
  type Pauses = nat -> Option<ReadestError>

  datatype PullState = PullState(ledger: Ledger, requests: seq<Request>)

  type Pull = Stepped<PullState, seq<BookRow>, ReadestError>

  function GetBooks(e: PullWorld, s: PullState, since: int, bearer: string): Pull {
    Stepped(s.(requests := s.requests + [Request(since, bearer)]), PullResult(e.answers(|s.requests|)))
  }

  function PullBooks(e: PullWorld, s: PullState, since: int): Pull {
    var first := AccessToken(e.auth, s.ledger);
    var s1 := s.(ledger := first.ledger);
    if first.result.Err? then Stepped(s1, Err(first.result.error))
    else
      var p := GetBooks(e, s1, since, first.result.value);
      if Rejected(e.answers(|s.requests|)) then PullAgain(e, p.state, since) else p
  }

  /** The single forced refresh and second request after a rejection. */
  function PullAgain(e: PullWorld, s: PullState, since: int): Pull {
    var forced := ForceRefresh(e.auth, s.ledger);
    var s1 := s.(ledger := forced.ledger);
    if forced.result.Err? then Stepped(s1, Err(forced.result.error)) else GetBooks(e, s1, since, forced.result.value)
  }

  /** One attempt, as a call on the state. */
  function Attempt(e: PullWorld, since: int): PullState -> Pull {
    (s: PullState) => PullBooks(e, s, since)
  }

  /** The engine's pullBooks: withRetry around the client. */
  function RetriedPull(rc: RetryConfig, e: PullWorld, pauses: Pauses, s: PullState, since: int): Pull {
    RetryFrom(rc, Attempt(e, since), ClassifyReadest, pauses, s, 0, rc.initialBackoff)
  }
}
