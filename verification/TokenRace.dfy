/** Any number of callers of AccessToken and ForceRefresh, interleaved step by step
    (internal/readest/auth.go:154-235), in a process that may stop between any two steps and start again from its
    state file. */
module TokenRace {
  import opened Wrappers
  import opened Errors
  import opened Token
  import opened TokenCalls

  /** Where a caller stands. Everything from Entered on is inside the mutex. */
  datatype Place =
    | Idle
    | Blocked(forced: bool)
    | Entered(forced: bool)
    | Refreshing
    | Sending(credential: Credential)
    | InFlight(credential: Credential)
    | Granted(token: Token)
    | Saving
    | Leaving
  {
    predicate Inside() { !Idle? && !Blocked? }

    predicate Asking() { Refreshing? || Sending? || InFlight? }
  }

  /** `file` is the token in the state file. `issued` are the refresh tokens the server has ever handed out,
      `exchanged` those it answered with a new set; `found` counts the callers that looked and went on to ask for a
      grant, `grants` the answered grants. */
  datatype Race = Race(
    stored: Token,
    file: Token,
    holder: Option<nat>,
    at: seq<Place>,
    issued: set<string>,
    exchanged: set<string>,
    found: nat,
    grants: nat)
  {
    function Move(t: nat, p: Place): Race
      requires t < |at|
    {
      this.(at := at[t := p])
    }
  }

  datatype Step =
    | Call(t: nat, forced: bool)
    | Lock(t: nat)
    | Look(t: nat, now: int)
    | ReadRefreshToken(t: nat)
    | Send(t: nat)
    | Reply(t: nat, result: Result<Token, ReadestError>)
    | LostReply(t: nat)
    | Store(t: nat)
    | Save(t: nat, replaced: bool)
    | Unlock(t: nat)
    | Crash

  predicate Enabled(r: Race, s: Step) {
    s.Crash? ||
    (s.t < |r.at| &&
    match s
    case Call(t, _) => r.at[t].Idle?
    case Lock(t) => r.at[t].Blocked? && r.holder == None
    case Look(t, _) => r.at[t].Entered?
    case ReadRefreshToken(t) => r.at[t].Refreshing?
    case Send(t) => r.at[t].Sending?
    case Reply(t, _) => r.at[t].InFlight?
    case LostReply(t) => r.at[t].InFlight?
    case Store(t) => r.at[t].Granted?
    case Save(t, _) => r.at[t].Saving?
    case Unlock(t) => r.at[t].Leaving?
    case Crash => true)
  }

  function LookPlace(stored: Token, forced: bool, now: int): Place {
    if forced then Refreshing
    else if stored.IsZero() then Sending(Password)
    else if Stale(stored, now) then Refreshing
    else Leaving
  }

  function ReplyPlace(c: Credential, result: Result<Token, ReadestError>): Place {
    match result
    case Ok(tok) => Granted(tok)
    case Err(e) => if c.RefreshToken? && e.InvalidRefreshToken? then Sending(Password) else Leaving
  }

  /** The refresh token that a grant submits. */
  function Submitted(c: Credential): set<string> { if c.RefreshToken? then {c.token} else {} }

  /** A lost reply is a grant that the server made and whose answer never came: the exchange counts, the caller sees a
      failed connection, and nobody ever sees the new token. */
  function Next(r: Race, s: Step): Race
    requires Enabled(r, s)
  {
    match s
    case Call(t, forced) => r.Move(t, Blocked(forced))
    case Lock(t) => r.Move(t, Entered(r.at[t].forced)).(holder := Some(t))
    case Look(t, now) =>
      var p := LookPlace(r.stored, r.at[t].forced, now);
      r.Move(t, p).(found := if p.Leaving? then r.found else r.found + 1)
    case ReadRefreshToken(t) =>
      r.Move(t, Sending(if r.stored.refreshToken == "" then Password else RefreshToken(r.stored.refreshToken)))
    case Send(t) => r.Move(t, InFlight(r.at[t].credential))
    case Reply(t, result) =>
      var c := r.at[t].credential;
      r.Move(t, ReplyPlace(c, result)).(
        grants := r.grants + 1,
        issued := if result.Ok? then r.issued + {result.value.refreshToken} else r.issued,
        exchanged := if result.Ok? then r.exchanged + Submitted(c) else r.exchanged)
    case LostReply(t) =>
      r.Move(t, ReplyPlace(r.at[t].credential, Err(AuthNetwork))).(
        exchanged := r.exchanged + Submitted(r.at[t].credential))
    case Store(t) => r.Move(t, Saving).(stored := r.at[t].token)
    case Save(t, replaced) => r.Move(t, Leaving).(file := if replaced then r.stored else r.file)
    case Unlock(t) => r.Move(t, Idle).(holder := None)
    case Crash => r.(stored := r.file, holder := None, at := seq(|r.at|, _ => Idle))
  }

  /** The server never hands out a refresh token twice, and a decoded token set has both parts. */
  predicate ServerOk(r: Race, s: Step) {
    s.Reply? && s.result.Ok? ==>
      s.result.value.refreshToken !in r.issued && s.result.value.refreshToken != "" && s.result.value.accessToken != ""
  }

  predicate Start(r: Race) {
    && r.holder == None && r.exchanged == {} && r.found == 0 && r.grants == 0
    && r.stored == r.file && r.stored.refreshToken in r.issued
    && forall t :: 0 <= t < |r.at| ==> r.at[t] == Idle
  }

  function End(r: Race, steps: seq<Step>): Race {
    if steps == [] then r
    else
      var before, s := End(r, steps[..|steps| - 1]), steps[|steps| - 1];
      if Enabled(before, s) then Next(before, s) else before
  }

  /** An interleaving: every step is one that could be taken, and the server keeps to its promise. */
  predicate Interleaving(r: Race, steps: seq<Step>) {
    steps == [] ||
    (&& Interleaving(r, steps[..|steps| - 1])
     && Enabled(End(r, steps[..|steps| - 1]), steps[|steps| - 1])
     && ServerOk(End(r, steps[..|steps| - 1]), steps[|steps| - 1]))
  }

  /******* Mutual exclusion *******/

  ghost predicate Exclusion(r: Race) {
    forall t :: 0 <= t < |r.at| ==> (r.at[t].Inside() <==> r.holder == Some(t))
  }

  lemma StepExclusion(r: Race, s: Step)
    requires Exclusion(r) && Enabled(r, s)
    ensures Exclusion(Next(r, s))
  {
  }

  /******* Refresh tokens are used once *******/

  predicate PlaceOk(stored: Token, issued: set<string>, exchanged: set<string>, p: Place) {
    match p
    case Sending(c) => c.RefreshToken? ==> c.token == stored.refreshToken
    case InFlight(c) => c.RefreshToken? ==> c.token == stored.refreshToken
    case Granted(tok) => tok.refreshToken in issued && tok.refreshToken !in exchanged
    case _ => true
  }

  /** The stored refresh token is spent exactly when `lost` says so, but for the moment between an answer and its
      Store. */
  ghost predicate Accounted(r: Race, lost: bool) {
    && Exclusion(r) && r.exchanged <= r.issued && r.stored.refreshToken in r.issued && r.file.refreshToken in r.issued
    && (forall t :: 0 <= t < |r.at| ==> PlaceOk(r.stored, r.issued, r.exchanged, r.at[t]))
    && (AnyGranted(r) || (r.stored.refreshToken in r.exchanged <==> lost))
  }

  ghost predicate AnyGranted(r: Race) { exists t :: 0 <= t < |r.at| && r.at[t].Granted? }

  /** Since the last grant was stored an exchange of the stored refresh token was answered to nobody, or the process was
      started from a file whose refresh token was already exchanged. */
  ghost predicate HoldsSpent(r: Race, steps: seq<Step>) {
    steps != [] &&
    var before, s := End(r, steps[..|steps| - 1]), steps[|steps| - 1];
    SpentAfter(before, s, HoldsSpent(r, steps[..|steps| - 1]))
  }

  predicate SpentAfter(before: Race, s: Step, spent: bool) {
    match s
    case Crash => before.file.refreshToken in before.exchanged
    case LostReply(t) => spent || (t < |before.at| && before.at[t].InFlight? && before.at[t].credential.RefreshToken?)
    case Store(_) => false
    case _ => spent
  }

  /** A caller is between an answer and its Store exactly from the answer to the Store. */
  lemma GrantedMoves(r: Race, s: Step)
    requires Exclusion(r) && Enabled(r, s) && !s.Crash?
    ensures AnyGranted(Next(r, s)) <==> (s.Reply? && s.result.Ok?) || (AnyGranted(r) && !s.Store?)
  {
    var n := Next(r, s);
    if AnyGranted(r) {
      var t :| 0 <= t < |r.at| && r.at[t].Granted?;
      assert r.holder == Some(t);
      assert t == s.t || n.at[t].Granted?;
    }
    if s.Reply? && s.result.Ok? {
      assert n.at[s.t].Granted?;
    } else if AnyGranted(n) {
      var t :| 0 <= t < |n.at| && n.at[t].Granted?;
      assert r.at[t].Granted?;
    }
  }

  lemma CrashAccounted(r: Race, lost: bool)
    requires Accounted(r, lost)
    ensures Accounted(Next(r, Crash), r.file.refreshToken in r.exchanged)
  {
  }

  lemma PlacesMove(r: Race, s: Step, lost: bool)
    requires Accounted(r, lost) && Enabled(r, s) && ServerOk(r, s) && !s.Crash?
    ensures var n := Next(r, s); forall t :: 0 <= t < |n.at| ==> PlaceOk(n.stored, n.issued, n.exchanged, n.at[t])
  {
    var n := Next(r, s);
    forall t | 0 <= t < |n.at| ensures PlaceOk(n.stored, n.issued, n.exchanged, n.at[t]) {
      assert PlaceOk(r.stored, r.issued, r.exchanged, r.at[t]);
      assert t == s.t || n.at[t] == r.at[t];
    }
  }

  lemma StepAccounted(r: Race, s: Step, lost: bool)
    requires Accounted(r, lost) && Enabled(r, s) && ServerOk(r, s)
    ensures Accounted(Next(r, s), SpentAfter(r, s, lost))
  {
    if s.Crash? {
      CrashAccounted(r, lost);
    } else {
      StepExclusion(r, s);
      GrantedMoves(r, s);
      PlacesMove(r, s, lost);
      assert PlaceOk(r.stored, r.issued, r.exchanged, r.at[s.t]);
    }
  }

  lemma {:induction false} RunAccounted(r: Race, steps: seq<Step>)
    requires Start(r) && Interleaving(r, steps)
    ensures Accounted(End(r, steps), HoldsSpent(r, steps))
  {
    if steps != [] {
      var front := steps[..|steps| - 1];
      RunAccounted(r, front);
      StepAccounted(End(r, front), steps[|steps| - 1], HoldsSpent(r, front));
    }
  }

  lemma AboutToSend(r: Race, t: nat, lost: bool)
    requires Accounted(r, lost)
    ensures t < |r.at| && r.at[t].Sending? && r.at[t].credential.RefreshToken? ==>
              (r.at[t].credential.token in r.exchanged <==> lost)
  {
    if t < |r.at| && r.at[t].Sending? && r.at[t].credential.RefreshToken? {
      assert PlaceOk(r.stored, r.issued, r.exchanged, r.at[t]);
      assert r.holder == Some(t);
      assert !AnyGranted(r);
    }
  }

  /** In any interleaving of any callers, with a crash between any two steps and any answer lost, a refresh token that
      was exchanged is submitted again exactly when, since the last grant was stored, the answer to an exchange of it
      was lost, or the process was started from a state file that the new token had not reached. */
  lemma SpentTokenSentExactly(r: Race, steps: seq<Step>, t: nat)
    requires Start(r) && Interleaving(r, steps)
    ensures var last := End(r, steps);
            t < |last.at| && last.at[t].Sending? && last.at[t].credential.RefreshToken? ==>
              (last.at[t].credential.token in last.exchanged <==> HoldsSpent(r, steps))
  {
    RunAccounted(r, steps);
    AboutToSend(End(r, steps), t, HoldsSpent(r, steps));
  }

  lemma {:induction false} NeverHoldsSpent(r: Race, steps: seq<Step>)
    requires forall s :: s in steps ==> !s.Crash? && !s.LostReply?
    ensures !HoldsSpent(r, steps)
  {
    if steps != [] {
      NeverHoldsSpent(r, steps[..|steps| - 1]);
    }
  }

  /** So within one process, and with every answer arriving, it never is. */
  lemma NoSecondExchange(r: Race, steps: seq<Step>, t: nat)
    requires Start(r) && Interleaving(r, steps) && forall s :: s in steps ==> !s.Crash? && !s.LostReply?
    ensures var last := End(r, steps);
            t < |last.at| && last.at[t].Sending? && last.at[t].credential.RefreshToken? ==>
              last.at[t].credential.token !in last.exchanged
  {
    SpentTokenSentExactly(r, steps, t);
    NeverHoldsSpent(r, steps);
  }

  /** One more step of an interleaving. */
  lemma StepOn(r: Race, steps: seq<Step>, s: Step)
    requires Interleaving(r, steps) && Enabled(End(r, steps), s) && ServerOk(End(r, steps), s)
    ensures Interleaving(r, steps + [s]) && End(r, steps + [s]) == Next(End(r, steps), s)
  {
    assert (steps + [s])[..|steps|] == steps;
  }

  /** A forced refresh by the only caller, up to the moment it submits the stored refresh token. */
  const ASK: seq<Step> := [Step.Call(0, true), Lock(0), Look(0, 0), ReadRefreshToken(0)]

  predicate Free(r: Race) { r.at == [Idle] && r.holder == None && r.stored.refreshToken != "" }

  lemma TwoOn(r: Race, steps: seq<Step>, a: Step, b: Step)
    requires Interleaving(r, steps) && Enabled(End(r, steps), a) && ServerOk(End(r, steps), a)
    requires var next := Next(End(r, steps), a); Enabled(next, b) && ServerOk(next, b)
    ensures Interleaving(r, steps + [a, b]) && End(r, steps + [a, b]) == Next(Next(End(r, steps), a), b)
  {
    StepOn(r, steps, a);
    StepOn(r, steps + [a], b);
    assert steps + [a] + [b] == steps + [a, b];
  }

  lemma Asking(r: Race, steps: seq<Step>)
    requires Interleaving(r, steps) && Free(End(r, steps))
    ensures Interleaving(r, steps + ASK)
    ensures var now := End(r, steps);
            End(r, steps + ASK) == now.(
              at := [Sending(RefreshToken(now.stored.refreshToken))], holder := Some(0), found := now.found + 1)
  {
    Entering(r, steps);
    Looking(r, steps + [Step.Call(0, true), Lock(0)]);
    Grouped(steps, Step.Call(0, true), Lock(0), Look(0, 0), ReadRefreshToken(0));
  }

  lemma Grouped<T>(s: seq<T>, a: T, b: T, c: T, d: T)
    ensures s + [a, b] + [c, d] == s + [a, b, c, d]
  {
  }

  lemma Entering(r: Race, steps: seq<Step>)
    requires Interleaving(r, steps) && Free(End(r, steps))
    ensures var more := steps + [Step.Call(0, true), Lock(0)];
            Interleaving(r, more) && End(r, more) == End(r, steps).(at := [Entered(true)], holder := Some(0))
  {
    TwoOn(r, steps, Step.Call(0, true), Lock(0));
  }

  lemma Looking(r: Race, steps: seq<Step>)
    requires Interleaving(r, steps)
    requires var now := End(r, steps); now.at == [Entered(true)] && now.stored.refreshToken != ""
    ensures var now, more := End(r, steps), steps + [Look(0, 0), ReadRefreshToken(0)];
            && Interleaving(r, more)
            && End(r, more) == now.(at := [Sending(RefreshToken(now.stored.refreshToken))], found := now.found + 1)
  {
    TwoOn(r, steps, Look(0, 0), ReadRefreshToken(0));
  }

  /** And it does happen: the answer to an exchange arrives, the process stops before the save, and once restarted it
      submits the spent refresh token again. */
  lemma CrashResubmits(r: Race, granted: Token)
    requires Start(r) && Free(r)
    requires granted.refreshToken !in r.issued && granted.refreshToken != "" && granted.accessToken != ""
    ensures var steps := ASK + [Send(0), Reply(0, Ok(granted))] + [Crash] + ASK;
            && Interleaving(r, steps) && End(r, steps).at == [Sending(RefreshToken(r.stored.refreshToken))]
            && r.stored.refreshToken in End(r, steps).exchanged
  {
    assert End(r, []) == r && [] + ASK == ASK;
    Asking(r, []);
    TwoOn(r, ASK, Send(0), Reply(0, Ok(granted)));
    StepOn(r, ASK + [Send(0), Reply(0, Ok(granted))], Crash);
    Asking(r, ASK + [Send(0), Reply(0, Ok(granted))] + [Crash]);
  }

  /** The same without a crash, when the answer is lost on the way and the caller tries again. */
  lemma LostReplyResubmits(r: Race)
    requires Start(r) && Free(r)
    ensures var steps := ASK + [Send(0), LostReply(0)] + [Unlock(0)] + ASK;
            && Interleaving(r, steps) && End(r, steps).at == [Sending(RefreshToken(r.stored.refreshToken))]
            && r.stored.refreshToken in End(r, steps).exchanged
  {
    assert End(r, []) == r && [] + ASK == ASK;
    Asking(r, []);
    TwoOn(r, ASK, Send(0), LostReply(0));
    StepOn(r, ASK + [Send(0), LostReply(0)], Unlock(0));
    Asking(r, ASK + [Send(0), LostReply(0)] + [Unlock(0)]);
  }

  /******* One grant is enough *******/

  /** The process does not stop, no answer is lost, nobody forces a refresh, no clock reading is later than `hi`, and
      every grant succeeds with a token still fresh then. */
  predicate Calm(s: Step, hi: int) {
    match s
    case Call(_, forced) => !forced
    case Look(_, now) => now <= hi
    case Reply(_, result) => result.Ok? && !Stale(result.value, hi)
    case LostReply(_) => false
    case Crash => false
    case _ => true
  }

  lemma StaysFresh(t: Token, now: int, hi: int)
    requires now <= hi && !Stale(t, hi)
    ensures !Stale(t, now)
  {
  }

  predicate FreshThen(t: Token, hi: int) { !t.IsZero() && !Stale(t, hi) }

  ghost predicate NobodyAsks(r: Race) { forall t :: 0 <= t < |r.at| ==> !r.at[t].Asking() }

  ghost predicate OneGrant(r: Race, hi: int) {
    && Exclusion(r)
    && (forall t :: 0 <= t < |r.at| && (r.at[t].Blocked? || r.at[t].Entered?) ==> !r.at[t].forced)
    && r.found <= 1
    && (if r.found == 0 then NothingFound(r) else if r.grants == 0 then HolderAsks(r) else Served(r, hi))
  }

  ghost predicate NothingFound(r: Race) {
    r.grants == 0 && NobodyAsks(r) && forall t :: 0 <= t < |r.at| ==> !r.at[t].Granted? && !r.at[t].Saving?
  }

  ghost predicate HolderAsks(r: Race) { r.holder.Some? && r.holder.value < |r.at| && r.at[r.holder.value].Asking() }

  ghost predicate Served(r: Race, hi: int) {
    && r.grants == 1 && NobodyAsks(r) && (FreshThen(r.stored, hi) || AnyGranted(r))
    && (forall t :: 0 <= t < |r.at| && r.at[t].Granted? ==> FreshThen(r.at[t].token, hi))
  }

  lemma StepServed(r: Race, s: Step, hi: int)
    requires Exclusion(r) && Served(r, hi) && Enabled(r, s) && Calm(s, hi)
    requires forall t :: 0 <= t < |r.at| && (r.at[t].Blocked? || r.at[t].Entered?) ==> !r.at[t].forced
    ensures Served(Next(r, s), hi) && Next(r, s).found == r.found
  {
    GrantedMoves(r, s);
    if s.Look? {
      assert r.holder == Some(s.t);
      StaysFresh(r.stored, s.now, hi);
    }
  }

  lemma StepAsks(r: Race, s: Step, hi: int)
    requires Exclusion(r) && HolderAsks(r) && r.grants == 0 && Enabled(r, s) && Calm(s, hi) && ServerOk(r, s)
    ensures var n := Next(r, s); n.found == r.found && if n.grants == 0 then HolderAsks(n) else Served(n, hi)
  {
    var n, t := Next(r, s), r.holder.value;
    if s.Reply? {
      assert r.holder == Some(s.t);
      assert n.at[s.t].Granted?;
    } else {
      assert s.t == t || n.at[t] == r.at[t];
    }
  }

  lemma StepOneGrant(r: Race, s: Step, hi: int)
    requires OneGrant(r, hi) && Enabled(r, s) && ServerOk(r, s) && Calm(s, hi)
    ensures OneGrant(Next(r, s), hi)
  {
    StepExclusion(r, s);
    if r.found == 0 {
      assert Next(r, s).found == 0 ==> NothingFound(Next(r, s));
    } else if r.grants == 0 {
      StepAsks(r, s, hi);
    } else {
      StepServed(r, s, hi);
    }
  }

  /** However many AccessToken callers run, and however many of them find the token empty or stale at first, exactly one
      grant is made as soon as one has found it so, none before, and never another. */
  lemma {:induction false} ExactlyOneGrant(r: Race, steps: seq<Step>, hi: int)
    requires Start(r) && Interleaving(r, steps) && forall s :: s in steps ==> Calm(s, hi)
    ensures OneGrant(End(r, steps), hi)
    ensures var last := End(r, steps);
            && last.grants <= last.found <= 1
            && (last.holder == None ==> last.grants == last.found)
  {
    if steps != [] {
      ExactlyOneGrant(r, steps[..|steps| - 1], hi);
      StepOneGrant(End(r, steps[..|steps| - 1]), steps[|steps| - 1], hi);
    }
  }
}
