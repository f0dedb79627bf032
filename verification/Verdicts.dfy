/** Which errors of which call are worth another attempt, error by error, and what that makes of every call. */
module Verdicts {
  import opened Wrappers
  import opened Errors
  import opened Readest
  import opened Retry
  import opened PullCalls
  import E = Engine

  /******* Error by error *******/

  /** A match-check or a push is tried again after these. */
  predicate Passing(e: BookOrbitError) {
    match e
    case RateLimited => true
    case Server => true
    case Network => true
    case BookGone => true
    case Unclassified => true
    case Unauthorized => false
    case BadRequest => false
    case UnsupportedEndpoint => false
    case Malformed => false
    case BodyTooLarge => false
    case Cancelled => false
  }

  /** A status call is tried again after these: a gone book is final, and what cannot be understood is not. */
  predicate PassingStatus(e: BookOrbitError) {
    match e
    case RateLimited => true
    case Server => true
    case Network => true
    case Malformed => true
    case UnsupportedEndpoint => true
    case BodyTooLarge => true
    case Unclassified => true
    case Unauthorized => false
    case BadRequest => false
    case BookGone => false
    case Cancelled => false
  }

  /** A pull is tried again after these; every failure to get a credential is among them. */
  predicate PassingPull(e: ReadestError) {
    match e
    case SyncRateLimited => true
    case SyncServer => true
    case SyncNetwork => true
    case InvalidCredentials => true
    case InvalidRefreshToken => true
    case AuthNetwork => true
    case AuthMalformed => true
    case AuthRateLimited => true
    case PersistFailed => true
    case SyncUnauthorized => false
    case SyncBadRequest => false
    case SyncMalformed => false
    case SyncCancelled => false
  }

  /******* How a call ends *******/

  /** Attempt k ended in an error that is worth another one. */
  predicate Stumbles<T, E>(a: Attempts<T, E>, passing: E -> bool, k: nat) {
    a.answer(k).Err? && passing(a.answer(k).error)
  }

  /** There is a pause after attempt k, and the caller gives up during it. */
  predicate Interrupted<T, E>(rc: RetryConfig, a: Attempts<T, E>, k: nat) {
    DelayAt(rc, k) > 0 && a.cancelled(k).Some?
  }

  /** Every attempt before k stumbled, was not the last one allowed, and was followed by a whole pause; and attempt k
      gives the result, unless it stumbles too and the pause after it is interrupted. */
  ghost predicate EndsAt<T, E>(rc: RetryConfig, a: Attempts<T, E>, passing: E -> bool, k: nat, r: Result<T, E>) {
    && (forall i: nat :: i < k ==> i < rc.maxAttempts && Stumbles(a, passing, i) && !Interrupted(rc, a, i))
    && if !Stumbles(a, passing, k) || k >= rc.maxAttempts then r == a.answer(k)
       else Interrupted(rc, a, k) && r == Err(a.cancelled(k).value)
  }

  ghost predicate Ends<T, E>(rc: RetryConfig, a: Attempts<T, E>, passing: E -> bool, r: Result<T, E>) {
    exists k: nat :: EndsAt(rc, a, passing, k, r)
  }

  lemma NoEarlierEnd<T, E>(rc: RetryConfig, a: Attempts<T, E>, passing: E -> bool, j: nat, q: Result<T, E>, k: nat,
                           r: Result<T, E>)
    requires EndsAt(rc, a, passing, j, q) && EndsAt(rc, a, passing, k, r)
    ensures j >= k
  {
    assert j < k ==> Stumbles(a, passing, j) && !Interrupted(rc, a, j);
  }

  /** There is only one way to end. */
  lemma EndsOnce<T, E>(rc: RetryConfig, a: Attempts<T, E>, passing: E -> bool, j: nat, q: Result<T, E>, k: nat,
                       r: Result<T, E>)
    requires EndsAt(rc, a, passing, j, q) && EndsAt(rc, a, passing, k, r)
    ensures j == k && q == r
  {
    NoEarlierEnd(rc, a, passing, j, q, k, r);
    NoEarlierEnd(rc, a, passing, k, r, j, q);
  }

  /** The classifier and the list of errors agree on every attempt. */
  ghost predicate Fits<T, E>(a: Attempts<T, E>, classify: Result<T, E> -> Outcome, passing: E -> bool) {
    forall i: nat {:trigger Stumbles(a, passing, i)} ::
      classify(a.answer(i)) == OutcomeRetry <==> Stumbles(a, passing, i)
  }

  ghost predicate WentOn<T, E>(rc: RetryConfig, a: Attempts<T, E>, passing: E -> bool, k: nat) {
    forall i: nat :: i < k ==> i < rc.maxAttempts && Stumbles(a, passing, i) && !Interrupted(rc, a, i)
  }

  lemma TrialStops<T, E>(rc: RetryConfig, a: Attempts<T, E>, classify: Result<T, E> -> Outcome, passing: E -> bool,
                         k: nat, delays: seq<int>)
    requires Fits(a, classify, passing)
    requires !Stumbles(a, passing, k) || k >= rc.maxAttempts || Interrupted(rc, a, k)
    ensures var t := TryFrom(rc, a, classify, k, DelayAt(rc, k), delays);
            t.calls == k + 1
            && t.result == if !Stumbles(a, passing, k) || k >= rc.maxAttempts then a.answer(k)
                           else Err(a.cancelled(k).value)
  {
  }

  lemma TrialGoesOn<T, E>(rc: RetryConfig, a: Attempts<T, E>, classify: Result<T, E> -> Outcome, passing: E -> bool,
                          k: nat, delays: seq<int>)
    requires Fits(a, classify, passing)
    requires Stumbles(a, passing, k) && k < rc.maxAttempts && !Interrupted(rc, a, k)
    ensures TryFrom(rc, a, classify, k, DelayAt(rc, k), delays)
            == TryFrom(rc, a, classify, k + 1, DelayAt(rc, k + 1), delays + [DelayAt(rc, k)])
  {
    assert DelayAt(rc, k + 1) == NextDelay(rc, DelayAt(rc, k));
  }

  lemma WentOneOn<T, E>(rc: RetryConfig, a: Attempts<T, E>, passing: E -> bool, k: nat)
    requires WentOn(rc, a, passing, k) && Stumbles(a, passing, k) && k < rc.maxAttempts && !Interrupted(rc, a, k)
    ensures WentOn(rc, a, passing, k + 1)
  {
    forall i: nat | i < k + 1 ensures i < rc.maxAttempts && Stumbles(a, passing, i) && !Interrupted(rc, a, i) {
      assert i < k || i == k;
    }
  }

  lemma EndsHere<T, E>(rc: RetryConfig, a: Attempts<T, E>, passing: E -> bool, k: nat, r: Result<T, E>)
    requires WentOn(rc, a, passing, k)
    requires if !Stumbles(a, passing, k) || k >= rc.maxAttempts then r == a.answer(k)
             else Interrupted(rc, a, k) && r == Err(a.cancelled(k).value)
    ensures EndsAt(rc, a, passing, k, r)
  {
    forall i: nat | i < k ensures i < rc.maxAttempts && Stumbles(a, passing, i) && !Interrupted(rc, a, i) {
    }
  }

  lemma {:induction false} TrialEnds<T, E>(rc: RetryConfig, a: Attempts<T, E>, classify: Result<T, E> -> Outcome,
                                           passing: E -> bool, k: nat, delays: seq<int>)
    requires Fits(a, classify, passing) && WentOn(rc, a, passing, k)
    ensures var t := TryFrom(rc, a, classify, k, DelayAt(rc, k), delays);
            t.calls > 0 && EndsAt(rc, a, passing, t.calls - 1, t.result)
    decreases rc.maxAttempts - k
  {
    if Stumbles(a, passing, k) && k < rc.maxAttempts && !Interrupted(rc, a, k) {
      TrialGoesOn(rc, a, classify, passing, k, delays);
      WentOneOn(rc, a, passing, k);
      TrialEnds(rc, a, classify, passing, k + 1, delays + [DelayAt(rc, k)]);
    } else {
      TrialStops(rc, a, classify, passing, k, delays);
      EndsHere(rc, a, passing, k, TryFrom(rc, a, classify, k, DelayAt(rc, k), delays).result);
    }
  }

  lemma RetriedEnds<T, E>(rc: RetryConfig, a: Attempts<T, E>, classify: Result<T, E> -> Outcome, passing: E -> bool)
    requires Fits(a, classify, passing)
    ensures Ends(rc, a, passing, Retried(rc, a, classify))
  {
    TrialEnds(rc, a, classify, passing, 0, []);
    assert EndsAt(rc, a, passing, Try(rc, a, classify).calls - 1, Retried(rc, a, classify));
  }

  /** What the engine hears of its calls: each is tried again after just the errors above. */
  lemma CallsEnd(rc: RetryConfig, w: E.Surroundings, n: nat)
    ensures Ends(rc, w.matching(n), Passing, E.Logical(rc, w).sync.matching(n))
    ensures Ends(rc, w.bulk(n), Passing, E.Logical(rc, w).sync.bulk(n))
    ensures Ends(rc, w.update(n), Passing, E.Logical(rc, w).sync.update(n))
    ensures Ends(rc, w.status(n), PassingStatus, E.Logical(rc, w).status(n))
  {
    RetriedEnds(rc, w.matching(n), ClassifyBookOrbit, Passing);
    RetriedEnds(rc, w.bulk(n), ClassifyBookOrbit, Passing);
    RetriedEnds(rc, w.update(n), ClassifyBookOrbit, Passing);
    RetriedEnds(rc, w.status(n), ClassifyBookOrbitStatus, PassingStatus);
  }

  /** A call with a state of its own ends so as well, in the state that its attempts have led to. */
  lemma StatefulEnds<S, T, E>(rc: RetryConfig, call: S -> Stepped<S, T, E>, classify: Result<T, E> -> Outcome,
                              passing: E -> bool, cancelled: nat -> Option<E>, s: S) returns (k: nat)
    requires Fits(Attempts(ResultsOf(call, s), cancelled), classify, passing)
    ensures var p := RetryFrom(rc, call, classify, cancelled, s, 0, rc.initialBackoff);
            && EndsAt(rc, Attempts(ResultsOf(call, s), cancelled), passing, k, p.result)
            && p.state == AfterCalls(call, s, k + 1)
  {
    var a := Attempts(ResultsOf(call, s), cancelled);
    TrialEnds(rc, a, classify, passing, 0, []);
    StatefulIsRetried(rc, call, classify, cancelled, s, 0, rc.initialBackoff, []);
    k := Try(rc, a, classify).calls - 1;
  }

  lemma PullFits(a: Attempts<seq<BookRow>, ReadestError>)
    ensures Fits(a, ClassifyReadest, PassingPull)
  {
  }

  /** And so does the pull, as a whole, with every request and grant that an attempt costs. */
  lemma PullEnds(rc: RetryConfig, e: PullWorld, pauses: Pauses, s: PullState, since: int) returns (k: nat)
    ensures var p := RetriedPull(rc, e, pauses, s, since);
            && EndsAt(rc, Attempts(ResultsOf(Attempt(e, since), s), pauses), PassingPull, k, p.result)
            && p.state == AfterCalls(Attempt(e, since), s, k + 1)
  {
    PullFits(Attempts(ResultsOf(Attempt(e, since), s), pauses));
    k := StatefulEnds(rc, Attempt(e, since), ClassifyReadest, PassingPull, pauses, s);
  }

  /******* What a caller can rely on *******/

  lemma EndedByItself<T, E>(rc: RetryConfig, a: Attempts<T, E>, passing: E -> bool, k: nat, r: Result<T, E>)
    requires EndsAt(rc, a, passing, k, r) && forall i: nat :: i < rc.maxAttempts ==> !Interrupted(rc, a, i)
    ensures r == a.answer(k) && k <= Max(rc.maxAttempts, 0)
    ensures Stumbles(a, passing, k) ==> k == Max(rc.maxAttempts, 0)
  {
    if k > 0 {
      assert Stumbles(a, passing, k - 1);
    }
  }

  /** Without an interruption a call ends in a passing error only if every attempt allowed did, and the first attempt
      that ends otherwise, with an answer or a lasting error, is the result. */
  lemma FirstLastingAnswer<T, E>(rc: RetryConfig, a: Attempts<T, E>, passing: E -> bool, r: Result<T, E>, n: nat)
    requires Ends(rc, a, passing, r) && forall i: nat :: i < rc.maxAttempts ==> !Interrupted(rc, a, i)
    ensures r.Err? && passing(r.error) <==> forall i: nat :: i <= Max(rc.maxAttempts, 0) ==> Stumbles(a, passing, i)
    ensures (n <= Max(rc.maxAttempts, 0) && !Stumbles(a, passing, n)
             && (forall i: nat :: i < n ==> Stumbles(a, passing, i))) ==> r == a.answer(n)
  {
    var k: nat :| EndsAt(rc, a, passing, k, r);
    EndedByItself(rc, a, passing, k, r);
    assert forall i: nat :: i < k ==> Stumbles(a, passing, i);
    assert Stumbles(a, passing, k) <==> r.Err? && passing(r.error);
    if n < k {
      assert Stumbles(a, passing, n);
    }
  }
}
