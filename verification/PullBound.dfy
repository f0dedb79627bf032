/** How much one pull can cost, through all three layers: retries, the single forced refresh, and the grants. */
module PullBound {
  import opened Wrappers
  import opened Errors
  import opened Readest
  import opened Retry
  import opened TokenCalls
  import opened TokenSafety
  import opened PullCalls

  function Http(s: PullState): nat { |s.requests| + |s.ledger.grants| }

  /** The sync API refuses the credential: 401, 403, or an error body that says so, whatever the status. */
  predicate Refuses(a: SyncAnswer) {
    match a
    case SyncStatus(code, deniedBody) => code in {401, 403} || deniedBody
    case _ => false
  }

  /** What a request gives for each class of answer. */
  predicate Gives(a: SyncAnswer, r: Result<seq<BookRow>, ReadestError>) {
    && (a.Books? ==> r == Ok(a.rows))
    && (a.BadBooks? ==> r == Err(SyncMalformed))
    && (a.NoSyncAnswer? ==> r == Err(if a.cancelled then SyncCancelled else SyncNetwork))
    && (Refuses(a) ==> r == Err(SyncUnauthorized))
    && (a.SyncStatus? && !Refuses(a) ==>
          && (a.code == 400 ==> r == Err(SyncBadRequest))
          && (a.code == 429 ==> r == Err(SyncRateLimited))
          && (500 <= a.code < 600 ==> r == Err(SyncServer))
          && (a.code != 400 && a.code != 429 && !(500 <= a.code < 600) ==> r == Err(SyncNetwork)))
  }

  lemma AnswerGives(a: SyncAnswer)
    ensures Gives(a, PullResult(a)) && (Refuses(a) <==> Rejected(a))
  {
  }

  /** One pull: a request is made if and only if a credential was had, and carries it; a second one if and only if the
      first was refused for its credential and the forced refresh succeeded, and it carries the refreshed one. The
      result is what the last request gives, or the error of the credential that could not be had. */
  lemma OnePull(e: PullWorld, s: PullState, since: int)
    ensures var p, first := PullBooks(e, s, since), AccessToken(e.auth, s.ledger);
            var n, forced := |s.requests|, ForceRefresh(e.auth, first.ledger);
            if first.result.Err? then
              p == Stepped(s.(ledger := first.ledger), Err(first.result.error))
            else if !Refuses(e.answers(n)) then
              && p.state == PullState(first.ledger, s.requests + [Request(since, first.result.value)])
              && Gives(e.answers(n), p.result)
            else if forced.result.Err? then
              && p.state == PullState(forced.ledger, s.requests + [Request(since, first.result.value)])
              && p.result == Err(forced.result.error)
            else
              && p.state == PullState(forced.ledger, s.requests + [Request(since, first.result.value),
                                                                   Request(since, forced.result.value)])
              && Gives(e.answers(n + 1), p.result)
  {
    var n := |s.requests|;
    AnswerGives(e.answers(n));
    AnswerGives(e.answers(n + 1));
    var first := AccessToken(e.auth, s.ledger);
    if first.result.Ok? {
      var one := [Request(since, first.result.value)];
      var forced := ForceRefresh(e.auth, first.ledger);
      if forced.result.Ok? {
        assert s.requests + one + [Request(since, forced.result.value)]
            == s.requests + [Request(since, first.result.value), Request(since, forced.result.value)];
      }
    }
  }

  /** It costs at most two requests and four grants, and a pull that succeeds ends with a request that carries the
      stored credential. */
  lemma OnePullCost(e: PullWorld, s: PullState, since: int)
    ensures var p := PullBooks(e, s, since);
            && |s.requests| <= |p.state.requests| <= |s.requests| + 2
            && |s.ledger.grants| <= |p.state.ledger.grants| <= |s.ledger.grants| + 4
            && (p.result.Ok? ==>
                  && |p.state.requests| > |s.requests|
                  && p.state.requests[|p.state.requests| - 1] == Request(since, p.state.ledger.token.accessToken))
  {
    var first := AccessToken(e.auth, s.ledger);
    var made := AccessTokenSafe(e.auth, s.ledger);
    MadeAtMostTwo(s.ledger, made);
    if first.result.Ok? && Rejected(e.answers(|s.requests|)) {
      var again := ForceRefreshSafe(e.auth, first.ledger);
    }
  }

  lemma MadeAtMostTwo(l: Ledger, made: seq<Grant>)
    requires made == [] || Follows(l.token, !l.token.IsZero(), made)
    ensures |made| <= 2
  {
  }

  lemma {:induction false} AttemptsCost(e: PullWorld, s: PullState, since: int, k: nat)
    ensures var t := AfterCalls(Attempt(e, since), s, k);
            |t.requests| <= |s.requests| + 2 * k && |t.ledger.grants| <= |s.ledger.grants| + 4 * k
  {
    if k > 0 {
      AttemptsCost(e, s, since, k - 1);
      OnePullCost(e, AfterCalls(Attempt(e, since), s, k - 1), since);
    }
  }

  /** One pass's pull costs at most 2 sync requests and 4 grants for each of at most RetryMaxAttempts + 1 attempts, six
      HTTP requests in all for each; and every attempt but the last ended in a retryable error. */
  lemma PullCost(rc: RetryConfig, e: PullWorld, pauses: Pauses, s: PullState, since: int) returns (calls: nat)
    ensures var p := RetriedPull(rc, e, pauses, s, since);
            && 1 <= calls <= Max(rc.maxAttempts, 0) + 1
            && p.state == AfterCalls(Attempt(e, since), s, calls)
            && |p.state.requests| <= |s.requests| + 2 * calls
            && |p.state.ledger.grants| <= |s.ledger.grants| + 4 * calls
            && Http(p.state) <= Http(s) + 6 * (Max(rc.maxAttempts, 0) + 1)
    ensures forall i: nat :: i < calls - 1 ==> ClassifyReadest(ResultsOf(Attempt(e, since), s)(i)) == OutcomeRetry
  {
    var a := Attempts(ResultsOf(Attempt(e, since), s), pauses);
    calls := Try(rc, a, ClassifyReadest).calls;
    RetryBound(rc, a, ClassifyReadest);
    StatefulIsRetried(rc, Attempt(e, since), ClassifyReadest, pauses, s, 0, rc.initialBackoff, []);
    AttemptsCost(e, s, since, calls);
  }
}
