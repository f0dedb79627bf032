/** What the stored token can be after any calls, and what a returned one is worth. */
module TokenSafety {
  import opened Wrappers
  import opened Errors
  import opened Token
  import opened StateFile
  import opened TokenCalls

  /** The token set of the last successful one of these grants, or else the token there was before them. */
  function Latest(before: Token, grants: seq<Grant>): (t: Token)
    ensures t == before || exists g :: g in grants && g.result == Ok(t)
  {
    if grants == [] then before
    else
      var last := grants[|grants| - 1];
      if last.result.Ok? then last.result.value else Latest(before, grants[..|grants| - 1])
  }

  lemma LatestSnoc(before: Token, grants: seq<Grant>, g: Grant)
    ensures Latest(before, grants + [g]) == if g.result.Ok? then g.result.value else Latest(before, grants)
  {
    assert (grants + [g])[..|grants|] == grants;
  }

  lemma {:induction false} LatestAppend(before: Token, a: seq<Grant>, b: seq<Grant>)
    ensures Latest(before, a + b) == Latest(Latest(before, a), b)
  {
    if b == [] {
      assert a + b == a;
    } else {
      assert (a + b)[..|a + b| - 1] == a + b[..|b| - 1];
      LatestAppend(before, a, b[..|b| - 1]);
    }
  }

  /** The grants a call makes: one that submits the stored refresh token, if there is one to submit and a refresh is
      due, and a sign-in when there is none, or exactly when that refresh token is rejected. */
  ghost predicate Follows(stored: Token, refreshes: bool, made: seq<Grant>) {
    if !refreshes || stored.refreshToken == "" then |made| == 1 && made[0].credential.Password?
    else
      && 1 <= |made| <= 2 && made[0].credential == RefreshToken(stored.refreshToken)
      && (|made| == 2 <==> made[0].result == Err(InvalidRefreshToken))
      && (|made| == 2 ==> made[1].credential.Password?)
  }

  /** All or nothing: the stored token is the one of the last successful grant, whole, or what it was; the file, if the
      call wrote it, holds that same token; and a returned credential is the stored one. */
  ghost predicate AllOrNothing(o: Outside, l: Ledger, c: Call<string>, made: seq<Grant>) {
    && c.ledger.grants == l.grants + made
    && c.ledger.token == Latest(l.token, made)
    && (c.ledger.written == l.written || c.ledger.written == Some(c.ledger.token))
    && (c.result.Ok? ==> c.result.value == c.ledger.token.accessToken)
    && (forall g :: g in made && g.result.Ok? ==> g == made[|made| - 1])
    && c.ledger.saves == l.saves + (if made != [] && made[|made| - 1].result.Ok? then 1 else 0)
    && (c.result.Err? && c.ledger.saves > l.saves <==> c.result == Err(PersistFailed))
    && (c.result == Err(PersistFailed) <==> c.ledger.saves > l.saves && !SaveOk(o.faults, l.saves))
  }

  lemma GrantNeverPersistError(c: Credential, a: Answer, now: int)
    ensures GrantResult(c, a, now) != Err(PersistFailed)
    ensures c.Password? ==> GrantResult(c, a, now) != Err(InvalidRefreshToken)
  {
  }

  /** What one grant, persisted if it succeeds, does to the ledger. */
  ghost predicate Obtained(o: Outside, l: Ledger, c: Call<Token>, g: Grant) {
    && c.ledger.grants == l.grants + [g]
    && (g.result.Err? ==> c.result == g.result && g.result != Err(PersistFailed)
                          && c.ledger.token == l.token && c.ledger.saves == l.saves && c.ledger.written == l.written)
    && (g.result.Ok? ==>
          && c.ledger.token == g.result.value && c.ledger.saves == l.saves + 1
          && (c.ledger.written == l.written || c.ledger.written == Some(g.result.value))
          && c.result == if SaveOk(o.faults, l.saves) then g.result else Err(PersistFailed))
  }

  lemma ObtainSafe(o: Outside, l: Ledger, c: Credential) returns (g: Grant)
    ensures Obtained(o, l, Obtain(o, l, c), g) && g.credential == c
    ensures c.Password? ==> Obtain(o, l, c).result != Err(InvalidRefreshToken)
  {
    GrantNeverPersistError(c, o.answers(|l.grants|), o.clock(l.ticks));
    g := Grant(c, GrantResult(c, o.answers(|l.grants|), o.clock(l.ticks)));
  }

  lemma OneGrantSafe(o: Outside, l: Ledger, c: Call<Token>, g: Grant)
    requires Obtained(o, l, c, g)
    ensures AllOrNothing(o, l, Bearer(c), [g])
  {
    LatestSnoc(l.token, [], g);
    assert [] + [g] == [g];
  }

  lemma TwoGrantsSafe(o: Outside, l: Ledger, first: Call<Token>, g1: Grant, second: Call<Token>, g2: Grant)
    requires Obtained(o, l, first, g1) && g1.result.Err? && Obtained(o, first.ledger, second, g2)
    ensures AllOrNothing(o, l, Bearer(second), [g1, g2])
  {
    LatestSnoc(l.token, [], g1);
    LatestSnoc(l.token, [g1], g2);
    assert [] + [g1] == [g1] && [g1] + [g2] == [g1, g2];
    assert l.grants + [g1] + [g2] == l.grants + [g1, g2];
  }

  lemma SignInSafe(o: Outside, l: Ledger) returns (made: seq<Grant>)
    ensures AllOrNothing(o, l, Bearer(SignIn(o, l)), made) && |made| == 1 && made[0].credential.Password?
  {
    var g := ObtainSafe(o, l, Password);
    OneGrantSafe(o, l, SignIn(o, l), g);
    made := [g];
  }

  lemma ForceRefreshCases(o: Outside, l: Ledger)
    ensures var first := Obtain(o, l, RefreshToken(l.token.refreshToken));
            ForceRefresh(o, l) ==
              if l.token.refreshToken == "" then Bearer(SignIn(o, l))
              else if first.result == Err(InvalidRefreshToken) then Bearer(SignIn(o, first.ledger))
              else Bearer(first)
  {
  }

  lemma ForceRefreshSafe(o: Outside, l: Ledger) returns (made: seq<Grant>)
    ensures AllOrNothing(o, l, ForceRefresh(o, l), made) && Follows(l.token, true, made)
  {
    ForceRefreshCases(o, l);
    if l.token.refreshToken == "" {
      made := SignInSafe(o, l);
    } else {
      var first := Obtain(o, l, RefreshToken(l.token.refreshToken));
      var g1 := ObtainSafe(o, l, RefreshToken(l.token.refreshToken));
      if first.result == Err(InvalidRefreshToken) {
        var g2 := ObtainSafe(o, first.ledger, Password);
        TwoGrantsSafe(o, l, first, g1, SignIn(o, first.ledger), g2);
        made := [g1, g2];
      } else {
        OneGrantSafe(o, l, first, g1);
        made := [g1];
      }
    }
  }

  /** Reading the clock first changes nothing of this. */
  lemma AfterTick(o: Outside, l: Ledger, c: Call<string>, made: seq<Grant>)
    requires AllOrNothing(o, l.(ticks := l.ticks + 1), c, made)
    ensures AllOrNothing(o, l, c, made)
  {
  }

  lemma AccessTokenCases(o: Outside, l: Ledger)
    ensures var c, l1 := AccessToken(o, l), l.(ticks := l.ticks + 1);
            if l.token.IsZero() then c == Bearer(SignIn(o, l1))
            else if Stale(l.token, o.clock(l.ticks)) then c == ForceRefresh(o, l1)
            else c == Call(l1, Ok(l.token.accessToken))
  {
  }

  lemma AccessTokenSafe(o: Outside, l: Ledger) returns (made: seq<Grant>)
    ensures AllOrNothing(o, l, AccessToken(o, l), made)
    ensures made == [] || Follows(l.token, !l.token.IsZero(), made)
    ensures made == [] <==> !l.token.IsZero() && !Stale(l.token, o.clock(l.ticks))
  {
    var l1 := l.(ticks := l.ticks + 1);
    var c := AccessToken(o, l);
    AccessTokenCases(o, l);
    if l.token.IsZero() {
      made := SignInSafe(o, l1);
      AfterTick(o, l, c, made);
    } else if Stale(l.token, o.clock(l.ticks)) {
      made := ForceRefreshSafe(o, l1);
      AfterTick(o, l, c, made);
    } else {
      made := [];
    }
  }

  function One(o: Outside, l: Ledger, force: bool): Call<string> {
    if force then ForceRefresh(o, l) else AccessToken(o, l)
  }

  /******* Exactly what becomes of a call, from what it meets *******/

  /** The call asks the server: it is forced to, or there is no token, or the token has less than a minute or less than
      half of its lifetime left. */
  predicate Asks(o: Outside, l: Ledger, force: bool) {
    force || l.token.IsZero() || l.token.expiresIn <= 0
    || l.token.expiresAt < o.clock(l.ticks) + 60
    || l.token.expiresAt < o.clock(l.ticks) + l.token.expiresIn / 2
  }

  /** The answer that decides: the first one, unless that rejects a refresh token and a sign-in follows. */
  function Deciding(o: Outside, l: Ledger): Answer {
    var first := o.answers(|l.grants|);
    if l.token.refreshToken != "" && first.Status? && (first.code == 400 || first.code == 401 || first.code == 403)
    then o.answers(|l.grants| + 1) else first
  }

  /** The answer carries a complete token set. */
  predicate Complete(a: Answer) {
    a.Decoded? && a.response.accessToken != "" && a.response.refreshToken != ""
  }

  /** That set, with an expiry derived from the clock if the server gives only a lifetime. */
  function Carried(a: Answer, now: int): (t: Token)
    requires Complete(a)
    ensures ToToken(a.response, now) == Ok(t)
  {
    var r := a.response;
    Token(r.accessToken, r.refreshToken,
          if r.expiresAt == 0 && r.expiresIn > 0 then now + r.expiresIn else r.expiresAt, r.expiresIn)
  }

  /** The clock reading that goes with the answer; AccessToken has read the clock once before. */
  function AnsweredAt(o: Outside, l: Ledger, force: bool): int { o.clock(if force then l.ticks else l.ticks + 1) }

  /** What a call that asks does: nothing if the answer is no complete set; otherwise the set is in memory, and in the
      file if the save got that far, whether or not the save and with it the call succeeds. */
  ghost predicate Settles(o: Outside, l: Ledger, c: Call<string>, a: Answer, now: int) {
    if !Complete(a) then
      c.result.Err? && c.result.error != PersistFailed
      && c.ledger.token == l.token && c.ledger.saves == l.saves && c.ledger.written == l.written
    else
      && c.ledger.token == Carried(a, now) && c.ledger.saves == l.saves + 1
      && c.ledger.written == (if Replaces(o.faults, l.saves) then Some(Carried(a, now)) else l.written)
      && c.result == if SaveOk(o.faults, l.saves) then Ok(a.response.accessToken) else Err(PersistFailed)
  }

  lemma ObtainSettles(o: Outside, l: Ledger, c: Credential)
    ensures Obtain(o, l, c).result != Err(InvalidRefreshToken) ==>
              Settles(o, l, Bearer(Obtain(o, l, c)), o.answers(|l.grants|), o.clock(l.ticks))
    ensures Obtain(o, l, c).result == Err(InvalidRefreshToken) <==>
              var a := o.answers(|l.grants|);
              c.RefreshToken? && a.Status? && (a.code == 400 || a.code == 401 || a.code == 403)
    ensures Obtain(o, l, c).result == Err(InvalidRefreshToken) ==>
              Obtain(o, l, c).ledger == l.(grants := l.grants + [Grant(c, Err(InvalidRefreshToken))])
  {
    GrantNeverPersistError(c, o.answers(|l.grants|), o.clock(l.ticks));
  }

  lemma ForceRefreshSettles(o: Outside, l: Ledger)
    ensures Settles(o, l, ForceRefresh(o, l), Deciding(o, l), o.clock(l.ticks))
    ensures l.grants < ForceRefresh(o, l).ledger.grants
  {
    ForceRefreshCases(o, l);
    if l.token.refreshToken == "" {
      ObtainSettles(o, l, Password);
    } else {
      var first := Obtain(o, l, RefreshToken(l.token.refreshToken));
      ObtainSettles(o, l, RefreshToken(l.token.refreshToken));
      if first.result == Err(InvalidRefreshToken) {
        ObtainSettles(o, first.ledger, Password);
      }
    }
  }

  /** A call that need not ask hands out the stored credential and changes nothing; one that asks is settled by the
      deciding answer and the save. */
  lemma CallSettles(o: Outside, l: Ledger, force: bool)
    ensures var c := One(o, l, force);
            if Asks(o, l, force) then Settles(o, l, c, Deciding(o, l), AnsweredAt(o, l, force))
              && l.grants < c.ledger.grants
            else c == Call(l.(ticks := l.ticks + 1), Ok(l.token.accessToken))
  {
    if force {
      ForceRefreshSettles(o, l);
    } else {
      var l1 := l.(ticks := l.ticks + 1);
      AccessTokenCases(o, l);
      if l.token.IsZero() {
        ObtainSettles(o, l1, Password);
      } else {
        ForceRefreshSettles(o, l1);
      }
    }
  }

  /** What goes wrong, by the answer that decides. A refused sign-in is final for the credentials only with 400 or 401;
      a rejected refresh token is never what a call fails with, since a sign-in follows. */
  predicate Blames(a: Answer, e: ReadestError) {
    match a
    case NoAnswer => e == AuthNetwork
    case Undecodable => e == AuthMalformed
    case Decoded(_) => e == AuthMalformed
    case Status(code) => e == if code == 429 then AuthRateLimited
                              else if code == 400 || code == 401 then InvalidCredentials
                              else AuthNetwork
  }

  lemma ObtainBlames(o: Outside, l: Ledger, c: Credential)
    ensures var r, a := Obtain(o, l, c).result, o.answers(|l.grants|);
            !Complete(a) && r != Err(InvalidRefreshToken) ==> r.Err? && Blames(a, r.error)
  {
  }

  lemma ForceRefreshBlames(o: Outside, l: Ledger)
    ensures var r, a := ForceRefresh(o, l).result, Deciding(o, l);
            !Complete(a) ==> r.Err? && Blames(a, r.error)
  {
    ForceRefreshCases(o, l);
    if l.token.refreshToken == "" {
      ObtainBlames(o, l, Password);
      ObtainSettles(o, l, Password);
    } else {
      var first := Obtain(o, l, RefreshToken(l.token.refreshToken));
      ObtainBlames(o, l, RefreshToken(l.token.refreshToken));
      ObtainSettles(o, l, RefreshToken(l.token.refreshToken));
      if first.result == Err(InvalidRefreshToken) {
        ObtainBlames(o, first.ledger, Password);
        ObtainSettles(o, first.ledger, Password);
      }
    }
  }

  /** A call fails exactly when it asks and the deciding answer brings no complete set, with the error of that answer,
      or when the save of the set it brings fails. */
  lemma FailureIsBlamed(o: Outside, l: Ledger, force: bool)
    ensures var c, a := One(o, l, force), Deciding(o, l);
            c.result.Err? <==> Asks(o, l, force) && (!Complete(a) || !AllWork(o.faults, l.saves, {RemoveTemp}))
    ensures var c, a := One(o, l, force), Deciding(o, l);
            c.result.Err? ==> if Complete(a) then c.result.error == PersistFailed else Blames(a, c.result.error)
  {
    CallSettles(o, l, force);
    SavedExactly(o.faults, l.saves);
    var l1 := l.(ticks := l.ticks + 1);
    if force {
      ForceRefreshBlames(o, l);
    } else {
      AccessTokenCases(o, l);
      ObtainBlames(o, l1, Password);
      ObtainSettles(o, l1, Password);
      ForceRefreshBlames(o, l1);
    }
  }

  /** A failed refresh is meant to leave the stored token alone. It does not exactly when the server did send a complete
      new set and only the save of it failed; a caller can tell from the answer and the state of the disk. */
  lemma FailureChangesTokenExactly(o: Outside, l: Ledger, force: bool)
    ensures var c, a := One(o, l, force), Deciding(o, l);
            && (c.result.Err? <==> Asks(o, l, force) && !(Complete(a) && SaveOk(o.faults, l.saves)))
            && (c.result.Err? && c.ledger.token != l.token <==>
                  && Asks(o, l, force) && Complete(a) && !SaveOk(o.faults, l.saves)
                  && Carried(a, AnsweredAt(o, l, force)) != l.token)
            && (c.result.Err? && c.ledger.token != l.token ==> c.result == Err(PersistFailed))
  {
    CallSettles(o, l, force);
  }

  /** A returned credential is meant to live for another minute. AccessToken returns one that does not exactly when it
      had to ask and the set it was granted and saved expires that soon: the guard is not applied to a granted
      token. */
  lemma GuardMissedExactly(o: Outside, l: Ledger)
    ensures var c, a, now := AccessToken(o, l), Deciding(o, l), o.clock(l.ticks);
            c.result.Ok? && c.ledger.token.expiresAt < now + 60 <==>
              && Asks(o, l, false) && Complete(a) && SaveOk(o.faults, l.saves)
              && Carried(a, o.clock(l.ticks + 1)).expiresAt < now + 60
  {
    CallSettles(o, l, false);
  }

  /** AccessToken does without a grant exactly when the stored token lives for another minute and for half of its
      lifetime; then it is the credential that is returned. */
  lemma NoGrantExactly(o: Outside, l: Ledger)
    ensures var c, now := AccessToken(o, l), o.clock(l.ticks);
            && (c.ledger.grants == l.grants <==>
                  && (l.token.accessToken != "" || l.token.refreshToken != "") && l.token.expiresIn > 0
                  && l.token.expiresAt - now >= 60
                  && l.token.expiresAt - now >= l.token.expiresIn / 2)
            && (c.ledger.grants == l.grants ==> c == Call(l.(ticks := l.ticks + 1), Ok(l.token.accessToken)))
  {
    CallSettles(o, l, false);
  }

  const SHORT := TokenResponse("access", "refresh", 0, 10)

  /** One call of each kind: a token of ten seconds is handed out, and a refresh that failed has changed the token. */
  lemma BrokenPromises()
    ensures var l := Ledger(ZERO_TOKEN, 0, [], 0, None);
            var c := AccessToken(Outside(_ => Decoded(SHORT), _ => 1000, (_, _) => false), l);
            c.result == Ok("access") && c.ledger.token.expiresAt == 1010
    ensures var l := Ledger(Token("old", "stored", 9000, 3600), 0, [], 0, None);
            var c := ForceRefresh(Outside(_ => Decoded(SHORT), _ => 1000, (_, step: SaveStep) => step.Rename?), l);
            c.result == Err(PersistFailed) && c.ledger.token.accessToken == "access" && c.ledger.written == None
  {
    CallSettles(Outside(_ => Decoded(SHORT), _ => 1000, (_, _) => false), Ledger(ZERO_TOKEN, 0, [], 0, None), false);
    CallSettles(Outside(_ => Decoded(SHORT), _ => 1000, (_, step: SaveStep) => step.Rename?),
                Ledger(Token("old", "stored", 9000, 3600), 0, [], 0, None), true);
  }

  /******* Any number of calls *******/

  function Calls(o: Outside, l: Ledger, forced: seq<bool>): Ledger {
    if forced == [] then l else One(o, Calls(o, l, forced[..|forced| - 1]), forced[|forced| - 1]).ledger
  }

  /** The stored token, and the one in the file if it was written since, are whole sets of the grants made since. */
  ghost predicate Rotated(l: Ledger, l1: Ledger, made: seq<Grant>) {
    && l1.grants == l.grants + made && l1.token == Latest(l.token, made)
    && (l1.written == l.written || WasLatest(l.token, made, l1.written))
  }

  ghost predicate WasLatest(before: Token, made: seq<Grant>, written: Option<Token>) {
    exists n :: 0 <= n <= |made| && written == Some(Latest(before, made[..n]))
  }

  lemma OneRotates(o: Outside, l: Ledger, force: bool) returns (made: seq<Grant>)
    ensures Rotated(l, One(o, l, force).ledger, made)
  {
    if force {
      made := ForceRefreshSafe(o, l);
    } else {
      made := AccessTokenSafe(o, l);
    }
    assert made[..|made|] == made;
  }

  lemma RotatedTwice(l: Ledger, l1: Ledger, l2: Ledger, a: seq<Grant>, b: seq<Grant>)
    requires Rotated(l, l1, a) && Rotated(l1, l2, b)
    ensures Rotated(l, l2, a + b)
  {
    LatestAppend(l.token, a, b);
    assert l.grants + a + b == l.grants + (a + b);
    if l2.written != l1.written {
      var n :| 0 <= n <= |b| && l2.written == Some(Latest(l1.token, b[..n]));
      LatestAppend(l.token, a, b[..n]);
      assert (a + b)[..|a| + n] == a + b[..n];
    } else if l1.written != l.written {
      var n :| 0 <= n <= |a| && l1.written == Some(Latest(l.token, a[..n]));
      assert (a + b)[..n] == a[..n];
    }
  }

  /** Over any calls, whatever fails in them, the stored token is the initial one or the whole set of the last grant
      that succeeded, and so was the one in the file when it was written. */
  lemma {:induction false} StoredTokenIsWhole(o: Outside, l: Ledger, forced: seq<bool>) returns (made: seq<Grant>)
    ensures Rotated(l, Calls(o, l, forced), made)
  {
    if forced == [] {
      made := [];
      assert l.grants + made == l.grants;
    } else {
      var l1 := Calls(o, l, forced[..|forced| - 1]);
      var before := StoredTokenIsWhole(o, l, forced[..|forced| - 1]);
      var last := OneRotates(o, l1, forced[|forced| - 1]);
      made := before + last;
      RotatedTwice(l, l1, Calls(o, l, forced), before, last);
    }
  }
}
