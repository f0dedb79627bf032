/** The sync client (internal/readest/client.go): one pull, with a single forced refresh after a rejection. */
module Client {
  import opened Wrappers
  import opened Errors
  import opened Readest
  import opened Retry
  import opened PullCalls
  import opened PullBound
  import A = Auth

  class Client {
    const auth: A.Auth
    const answers: nat -> SyncAnswer
    var requests: seq<Request>

    constructor (auth: A.Auth, answers: nat -> SyncAnswer)
      ensures this.auth == auth && this.answers == answers && requests == []
    {
      this.auth, this.answers, requests := auth, answers, [];
    }

    ghost function World(): PullWorld
      reads this, auth
    {
      PullWorld(auth.World(), answers)
    }

    ghost function View(): PullState
      reads this, auth, auth.store
    {
      PullState(auth.View(), requests)
    }

    method Get(since: int, bearer: string) returns (r: Result<seq<BookRow>, ReadestError>, authRetry: bool)
      modifies this`requests
      ensures requests == old(requests) + [Request(since, bearer)]
      ensures r == PullResult(answers(|old(requests)|)) && authRetry == Rejected(answers(|old(requests)|))
      ensures Gives(answers(|old(requests)|), r) && (authRetry <==> Refuses(answers(|old(requests)|)))
    {
      var answer := answers(|requests|);
      requests := requests + [Request(since, bearer)];
      match answer {
        case NoSyncAnswer(cancelled) => return Err(if cancelled then SyncCancelled else SyncNetwork), false;
        case Books(rows) => return Ok(rows), false;
        case BadBooks => return Err(SyncMalformed), false;
        case SyncStatus(code, deniedBody) =>
          if code == 401 || code == 403 || deniedBody {
            return Err(SyncUnauthorized), true;
          }
          return Err(SyncStatusError(code)), false;
      }
    }

    method PullBooks(since: int) returns (r: Result<seq<BookRow>, ReadestError>)
      requires auth.store.Valid()
      modifies this, auth, auth.store
      ensures auth.OnlyToken()
      ensures Stepped(View(), r) == PullCalls.PullBooks(World(), old(View()), since)
    {
      var bearer := auth.AccessToken();
      if bearer.Err? {
        return Err(bearer.error);
      }
      var authRetry;
      r, authRetry := Get(since, bearer.value);
      if r.Ok? {
        return r;
      }
      if !authRetry {
        return r;
      }
      r := PullAgain(since);
    }

    method PullAgain(since: int) returns (r: Result<seq<BookRow>, ReadestError>)
      requires auth.store.Valid()
      modifies this, auth, auth.store
      ensures auth.OnlyToken()
      ensures Stepped(View(), r) == PullCalls.PullAgain(World(), old(View()), since)
    {
      var bearer := auth.ForceRefresh();
      if bearer.Err? {
        return Err(bearer.error);
      }
      var authRetry;
      r, authRetry := Get(since, bearer.value);
    }
  }
}
