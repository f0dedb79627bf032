/** withRetry: bounded exponential backoff around one call (internal/sync/engine.go:725-748). */
module Retry {
  import opened Wrappers
  import opened Errors

  /** Durations are Go's time.Duration: signed 64-bit nanoseconds. */
  datatype RetryConfig = RetryConfig(maxAttempts: int, initialBackoff: int, maxBackoff: int)

  const TWO_TO_THE_63: int := 0x8000_0000_0000_0000
  const TWO_TO_THE_64: int := 0x1_0000_0000_0000_0000

  /** x + x as a 64-bit signed machine integer computes it: one wrap is all a doubling can need. */
  function Double64(x: int): (r: int)
    ensures -TWO_TO_THE_63 <= x < TWO_TO_THE_63 ==> -TWO_TO_THE_63 <= r < TWO_TO_THE_63
    ensures r == 2 * x || r == 2 * x - TWO_TO_THE_64 || r == 2 * x + TWO_TO_THE_64
  {
    if 2 * x >= TWO_TO_THE_63 then 2 * x - TWO_TO_THE_64
    else if 2 * x < -TWO_TO_THE_63 then 2 * x + TWO_TO_THE_64
    else 2 * x
  }

  /** Everything the outside world can do to one retried call: the answer to each attempt,
      and whether the context is already cancelled when the pause after it starts or during it. */
  datatype Attempts<!T, !E> = Attempts(answer: nat -> Result<T, E>, cancelled: nat -> Option<E>)

  function NextDelay(cfg: RetryConfig, delay: int): int {
    var doubled := Double64(delay);
    if doubled > cfg.maxBackoff then cfg.maxBackoff else doubled
  }

  /** The pause before attempt k + 1. */
  function DelayAt(cfg: RetryConfig, k: nat): int {
    if k == 0 then cfg.initialBackoff else NextDelay(cfg, DelayAt(cfg, k - 1))
  }

  /** defaultSleep: a non-positive pause returns at once and never notices a cancellation. */
  function SleepError<E>(delay: int, cancelled: Option<E>): Option<E> {
    if delay <= 0 then None else cancelled
  }

  /** One call of withRetry: what it returned, how often it called, and the pauses it began. */
  datatype Trial<T, E> = Trial(result: Result<T, E>, calls: nat, delays: seq<int>)

  /** withRetry from attempt k on, with the pauses begun so far. */
  function TryFrom<T, E>(cfg: RetryConfig, a: Attempts<T, E>, classify: Result<T, E> -> Outcome,
                         k: nat, delay: int, delays: seq<int>): Trial<T, E>
    decreases cfg.maxAttempts - k
  {
    var r := a.answer(k);
    if classify(r) != OutcomeRetry || k >= cfg.maxAttempts then Trial(r, k + 1, delays)
    else
      match SleepError(delay, a.cancelled(k))
      case Some(e) => Trial(Err(e), k + 1, delays + [delay])
      case None => TryFrom(cfg, a, classify, k + 1, NextDelay(cfg, delay), delays + [delay])
  }

  function Try<T, E>(cfg: RetryConfig, a: Attempts<T, E>, classify: Result<T, E> -> Outcome): Trial<T, E> {
    TryFrom(cfg, a, classify, 0, cfg.initialBackoff, [])
  }

  /** What one retried call answers in the end; all the engine sees of it. */
  function Retried<T, E>(cfg: RetryConfig, a: Attempts<T, E>, classify: Result<T, E> -> Outcome): Result<T, E> {
    Try(cfg, a, classify).result
  }

  method WithRetry<T, E>(cfg: RetryConfig, a: Attempts<T, E>, classify: Result<T, E> -> Outcome)
    returns (trial: Trial<T, E>)
    ensures trial == Try(cfg, a, classify)
  {
    var delay := cfg.initialBackoff;
    var attempt: nat := 0;
    var delays := [];
    while true
      invariant TryFrom(cfg, a, classify, attempt, delay, delays) == Try(cfg, a, classify)
      decreases cfg.maxAttempts - attempt
    {
      var err := a.answer(attempt);
      if classify(err) != OutcomeRetry {
        return Trial(err, attempt + 1, delays);
      }
      if attempt >= cfg.maxAttempts {
        return Trial(err, attempt + 1, delays);
      }
      delays := delays + [delay];
      var serr := SleepError(delay, a.cancelled(attempt));
      if serr.Some? {
        return Trial(Err(serr.value), attempt + 1, delays);
      }
      delay := NextDelay(cfg, delay);
      attempt := attempt + 1;
    }
  }

  /** How many calls a trial that began at attempt k made, why it went on and why it stopped. */
  ghost predicate CallsBounded<T, E>(cfg: RetryConfig, a: Attempts<T, E>, classify: Result<T, E> -> Outcome,
                                     k: nat, t: Trial<T, E>)
  {
    && k < t.calls <= Max(cfg.maxAttempts, k) + 1
    && (forall i: nat :: k <= i < t.calls - 1 ==> classify(a.answer(i)) == OutcomeRetry)
    && (t.result == a.answer(t.calls - 1)
        || (a.cancelled(t.calls - 1).Some? && t.result == Err(a.cancelled(t.calls - 1).value)))
    && (t.calls <= cfg.maxAttempts && t.result == a.answer(t.calls - 1) ==>
          classify(t.result) != OutcomeRetry || a.cancelled(t.calls - 1).Some?)
  }

  ghost predicate PausesOnSchedule(cfg: RetryConfig, delays: seq<int>) {
    forall i: nat :: i < |delays| ==> delays[i] == DelayAt(cfg, i)
  }

  lemma {:induction false} TrialCalls<T, E>(cfg: RetryConfig, a: Attempts<T, E>,
                                            classify: Result<T, E> -> Outcome, k: nat, delay: int, delays: seq<int>)
    ensures CallsBounded(cfg, a, classify, k, TryFrom(cfg, a, classify, k, delay, delays))
    decreases cfg.maxAttempts - k
  {
    if classify(a.answer(k)) == OutcomeRetry && k < cfg.maxAttempts && SleepError(delay, a.cancelled(k)).None? {
      TrialCalls(cfg, a, classify, k + 1, NextDelay(cfg, delay), delays + [delay]);
    }
  }

  lemma {:induction false} TrialPauses<T, E>(cfg: RetryConfig, a: Attempts<T, E>,
                                             classify: Result<T, E> -> Outcome, k: nat, delays: seq<int>)
    requires |delays| == k && PausesOnSchedule(cfg, delays)
    ensures PausesOnSchedule(cfg, TryFrom(cfg, a, classify, k, DelayAt(cfg, k), delays).delays)
    decreases cfg.maxAttempts - k
  {
    if classify(a.answer(k)) == OutcomeRetry && k < cfg.maxAttempts
      && SleepError(DelayAt(cfg, k), a.cancelled(k)).None? {
      TrialPauses(cfg, a, classify, k + 1, delays + [DelayAt(cfg, k)]);
    }
  }

  /** At most RetryMaxAttempts + 1 calls, all but the last retryable, paused by the backoff schedule. */
  lemma RetryBound<T, E>(cfg: RetryConfig, a: Attempts<T, E>, classify: Result<T, E> -> Outcome)
    ensures CallsBounded(cfg, a, classify, 0, Try(cfg, a, classify))
    ensures PausesOnSchedule(cfg, Try(cfg, a, classify).delays)
  {
    TrialCalls(cfg, a, classify, 0, cfg.initialBackoff, []);
    TrialPauses(cfg, a, classify, 0, []);
  }

  /** base * 2^k */
  function Doubled(base: int, k: nat): int {
    if k == 0 then base else 2 * Doubled(base, k - 1)
  }

  /** The backoff schedule in closed form; the cap keeps every doubling inside 64 bits. */
  lemma {:induction false} DelayClosedForm(cfg: RetryConfig, k: nat)
    requires 0 <= cfg.initialBackoff <= cfg.maxBackoff < TWO_TO_THE_63 / 2
    ensures DelayAt(cfg, k) == Min(Doubled(cfg.initialBackoff, k), cfg.maxBackoff)
    ensures 0 <= DelayAt(cfg, k) <= cfg.maxBackoff
    ensures Double64(DelayAt(cfg, k)) == 2 * DelayAt(cfg, k)
  {
    if k > 0 {
      DelayClosedForm(cfg, k - 1);
    }
  }

  /** No pause of the schedule leaves 64 bits when it is doubled. */
  ghost predicate NeverWraps(cfg: RetryConfig) {
    forall k: nat :: Double64(DelayAt(cfg, k)) == 2 * DelayAt(cfg, k)
  }

  /** Until something wraps the pauses only grow, so the schedule reaches every bound up to the maximum. */
  lemma {:induction false} PausesReach(cfg: RetryConfig, bound: int, k: nat) returns (n: nat)
    requires 0 < cfg.initialBackoff <= cfg.maxBackoff && bound <= cfg.maxBackoff && NeverWraps(cfg)
    requires 0 < DelayAt(cfg, k)
    ensures DelayAt(cfg, n) >= bound
    decreases bound - DelayAt(cfg, k)
  {
    n := k;
    if DelayAt(cfg, k) < bound {
      assert DelayAt(cfg, k + 1) == NextDelay(cfg, DelayAt(cfg, k));
      assert Double64(DelayAt(cfg, k)) == 2 * DelayAt(cfg, k);
      n := PausesReach(cfg, bound, k + 1);
    }
  }

  predicate Machine(x: int) { -TWO_TO_THE_63 <= x < TWO_TO_THE_63 }

  /** Below 2^62 the schedule stays there. */
  lemma {:induction false} PausesStaySmall(cfg: RetryConfig, k: nat)
    requires 0 <= cfg.initialBackoff < TWO_TO_THE_63 / 2 && 0 <= cfg.maxBackoff < TWO_TO_THE_63 / 2
    ensures 0 <= DelayAt(cfg, k) < TWO_TO_THE_63 / 2
  {
    if k > 0 {
      PausesStaySmall(cfg, k - 1);
    }
  }

  lemma {:induction false} NoPauseAtAll(cfg: RetryConfig, k: nat)
    requires cfg.initialBackoff == 0 <= cfg.maxBackoff
    ensures DelayAt(cfg, k) == 0
  {
    if k > 0 {
      NoPauseAtAll(cfg, k - 1);
    }
  }

  /** A negative pause is doubled until it wraps; the maximum does not stop it. */
  lemma {:induction false} NegativePauseWraps(cfg: RetryConfig, k: nat)
    requires Machine(cfg.maxBackoff) && Machine(DelayAt(cfg, k)) && DelayAt(cfg, k) < 0
    ensures !NeverWraps(cfg)
    decreases DelayAt(cfg, k) + TWO_TO_THE_63
  {
    if Double64(DelayAt(cfg, k)) == 2 * DelayAt(cfg, k) {
      assert DelayAt(cfg, k + 1) == NextDelay(cfg, DelayAt(cfg, k));
      NegativePauseWraps(cfg, k + 1);
    }
  }

  /** Exactly which configurations back off without ever wrapping, among all that a machine can hold: the maximum is
      not negative, and either there is no pause at all or both the initial pause and the maximum are below 2^62
      nanoseconds. */
  lemma BackoffWrapsExactly(cfg: RetryConfig)
    requires Machine(cfg.initialBackoff) && Machine(cfg.maxBackoff)
    ensures NeverWraps(cfg) <==>
              cfg.maxBackoff >= 0
              && (cfg.initialBackoff == 0 || (0 < cfg.initialBackoff < TWO_TO_THE_63 / 2
                                              && cfg.maxBackoff < TWO_TO_THE_63 / 2))
  {
    if cfg.maxBackoff < 0 || cfg.initialBackoff < 0 {
      SomeNegativePause(cfg);
    } else if cfg.initialBackoff == 0 {
      forall k: nat ensures Double64(DelayAt(cfg, k)) == 2 * DelayAt(cfg, k) {
        NoPauseAtAll(cfg, k);
      }
    } else if cfg.initialBackoff < TWO_TO_THE_63 / 2 && cfg.maxBackoff < TWO_TO_THE_63 / 2 {
      forall k: nat ensures Double64(DelayAt(cfg, k)) == 2 * DelayAt(cfg, k) {
        PausesStaySmall(cfg, k);
      }
    } else {
      assert DelayAt(cfg, 0) == cfg.initialBackoff;
      if cfg.initialBackoff < TWO_TO_THE_63 / 2 && NeverWraps(cfg) {
        var n := PausesReach(cfg, TWO_TO_THE_63 / 2, 0);
      }
    }
  }

  /** A negative initial pause, or a negative maximum after the first doubling. */
  lemma SomeNegativePause(cfg: RetryConfig)
    requires Machine(cfg.initialBackoff) && Machine(cfg.maxBackoff) && (cfg.maxBackoff < 0 || cfg.initialBackoff < 0)
    ensures !NeverWraps(cfg)
  {
    assert DelayAt(cfg, 0) == cfg.initialBackoff;
    if cfg.initialBackoff < 0 {
      NegativePauseWraps(cfg, 0);
    } else if Double64(DelayAt(cfg, 0)) == 2 * DelayAt(cfg, 0) {
      assert DelayAt(cfg, 1) == NextDelay(cfg, DelayAt(cfg, 0));
      NegativePauseWraps(cfg, 1);
    }
  }

  /** One that wraps at once, to a pause that is none. */
  lemma UncappedBackoffWraps()
    ensures var cfg := RetryConfig(5, TWO_TO_THE_63 / 2, TWO_TO_THE_63 - 1);
            DelayAt(cfg, 1) == -TWO_TO_THE_63 && !NeverWraps(cfg)
  {
    var cfg := RetryConfig(5, TWO_TO_THE_63 / 2, TWO_TO_THE_63 - 1);
    assert DelayAt(cfg, 0) == TWO_TO_THE_63 / 2;
    BackoffWrapsExactly(cfg);
  }

  /******* Calls that move a state along *******/

  datatype Stepped<S, T, E> = Stepped(state: S, result: Result<T, E>)

  /** withRetry around a call with a state of its own, from attempt k and a pause of `delay` on. */
  function RetryFrom<S, T, E>(cfg: RetryConfig, call: S -> Stepped<S, T, E>, classify: Result<T, E> -> Outcome,
                              cancelled: nat -> Option<E>, s: S, k: nat, delay: int): Stepped<S, T, E>
    decreases cfg.maxAttempts - k
  {
    var c := call(s);
    if classify(c.result) != OutcomeRetry || k >= cfg.maxAttempts then c
    else
      match SleepError(delay, cancelled(k))
      case Some(e) => Stepped(c.state, Err(e))
      case None => RetryFrom(cfg, call, classify, cancelled, c.state, k + 1, NextDelay(cfg, delay))
  }

  /** The state after k calls, however they ended, and the sequence of their results. */
  function AfterCalls<S, T, E>(call: S -> Stepped<S, T, E>, s: S, k: nat): S {
    if k == 0 then s else call(AfterCalls(call, s, k - 1)).state
  }

  function ResultsOf<S, T, E>(call: S -> Stepped<S, T, E>, s: S): nat -> Result<T, E> {
    (k: nat) => call(AfterCalls(call, s, k)).result
  }

  /** A stateful call is retried exactly as the sequence of its results would be. */
  lemma {:induction false} StatefulIsRetried<S, T, E>(cfg: RetryConfig, call: S -> Stepped<S, T, E>,
      classify: Result<T, E> -> Outcome, cancelled: nat -> Option<E>, s: S, k: nat, delay: int, delays: seq<int>)
    ensures var t := TryFrom(cfg, Attempts(ResultsOf(call, s), cancelled), classify, k, delay, delays);
            RetryFrom(cfg, call, classify, cancelled, AfterCalls(call, s, k), k, delay)
            == Stepped(AfterCalls(call, s, t.calls), t.result)
    decreases cfg.maxAttempts - k
  {
    var r := call(AfterCalls(call, s, k)).result;
    if classify(r) == OutcomeRetry && k < cfg.maxAttempts && SleepError(delay, cancelled(k)).None? {
      StatefulIsRetried(cfg, call, classify, cancelled, s, k + 1, NextDelay(cfg, delay), delays + [delay]);
    }
  }
}
