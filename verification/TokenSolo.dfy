/** A caller that is not disturbed takes the steps of the interleaving machine that the call functions describe. */
module TokenSolo {
  import opened Wrappers
  import opened Errors
  import opened Token
  import opened StateFile
  import opened TokenCalls
  import opened TokenSafety
  import opened TokenRace

  function Advance(r: Race, s: Step): Race { if Enabled(r, s) then Next(r, s) else r }

  lemma {:induction false} EndCons(r: Race, s: Step, rest: seq<Step>)
    ensures End(r, [s] + rest) == End(Advance(r, s), rest)
  {
    if rest == [] {
      assert [s] + rest == [s] && [s][..0] == [];
      assert End(r, []) == r;
    } else {
      var front, last := rest[..|rest| - 1], rest[|rest| - 1];
      assert ([s] + rest)[..|[s] + rest| - 1] == [s] + front;
      EndCons(r, s, front);
    }
  }

  lemma {:induction false} EndAppend(r: Race, a: seq<Step>, b: seq<Step>)
    ensures End(r, a + b) == End(End(r, a), b)
  {
    if b == [] {
      assert a + b == a;
    } else {
      assert (a + b)[..|a + b| - 1] == a + b[..|b| - 1];
      EndAppend(r, a, b[..|b| - 1]);
    }
  }

  /** One grant inside the mutex: sent, answered, and if it succeeded stored and saved. */
  function GrantSteps(t: nat, result: Result<Token, ReadestError>, replaced: bool): seq<Step> {
    [Send(t), Reply(t, result)] + if result.Ok? then [Store(t), Save(t, replaced)] else []
  }

  /** The caller stands at a place, holding the mutex, and memory, file and the number of grants are those of a ledger:
      `base` is what the file held before anything was written, `ahead` the grants made before. */
  predicate Stands(r: Race, t: nat, p: Place, l: Ledger, base: Token, ahead: int) {
    && t < |r.at| && r.at[t] == p && r.holder == Some(t) && r.stored == l.token && r.grants == |l.grants| + ahead
    && r.file == if l.written.Some? then l.written.value else base
  }

  lemma SendReply(r: Race, t: nat, c: Credential, result: Result<Token, ReadestError>)
    requires t < |r.at| && r.at[t] == Sending(c)
    ensures var n := End(r, [Send(t), Reply(t, result)]);
            && t < |n.at| && n.at[t] == ReplyPlace(c, result) && n.holder == r.holder && n.stored == r.stored
            && n.file == r.file
            && n.grants == r.grants + 1
  {
    TwoSteps(r, Send(t), Reply(t, result));
  }

  lemma StoreSave(r: Race, t: nat, token: Token, replaced: bool)
    requires t < |r.at| && r.at[t] == Granted(token)
    ensures var n := End(r, [Store(t), Save(t, replaced)]);
            && t < |n.at| && n.at[t] == Leaving && n.holder == r.holder && n.stored == token && n.grants == r.grants
            && n.file == if replaced then token else r.file
  {
    TwoSteps(r, Store(t), Save(t, replaced));
  }

  /** The ledger after one grant, persisted if it succeeds. */
  lemma GrantRun(r: Race, o: Outside, l: Ledger, t: nat, c: Credential, base: Token, ahead: int)
    requires Stands(r, t, Sending(c), l, base, ahead)
    ensures var result := PostGrant(o, l, c).result;
            Stands(End(r, GrantSteps(t, result, Replaces(o.faults, l.saves))), t,
                   if result.Ok? then Leaving else ReplyPlace(c, result), Obtain(o, l, c).ledger, base, ahead)
  {
    var result, replaced := PostGrant(o, l, c).result, Replaces(o.faults, l.saves);
    SendReply(r, t, c, result);
    var answered := End(r, [Send(t), Reply(t, result)]);
    EndAppend(r, [Send(t), Reply(t, result)], if result.Ok? then [Store(t), Save(t, replaced)] else []);
    if result.Ok? {
      StoreSave(answered, t, result.value, replaced);
    } else {
      assert End(answered, []) == answered;
    }
  }

  lemma TwoSteps(r: Race, a: Step, b: Step)
    ensures End(r, [a, b]) == Advance(Advance(r, a), b)
  {
    EndCons(r, a, [b]);
    EndCons(Advance(r, a), b, []);
    assert [a] + [b] == [a, b] && [b] + [] == [b];
  }

  /** The steps of one grant that the outside answers as it does. */
  function ObtainSteps(o: Outside, l: Ledger, t: nat, c: Credential): seq<Step> {
    GrantSteps(t, PostGrant(o, l, c).result, Replaces(o.faults, l.saves))
  }

  /** What a forced or stale caller does between its look and its unlock. */
  function RefreshSteps(o: Outside, l: Ledger, t: nat): seq<Step> {
    [ReadRefreshToken(t)] +
    if l.token.refreshToken == "" then ObtainSteps(o, l, t, Password)
    else
      var c := RefreshToken(l.token.refreshToken);
      var first := PostGrant(o, l, c);
      ObtainSteps(o, l, t, c) +
      if first.result == Err(InvalidRefreshToken) then ObtainSteps(o, first.ledger, t, Password) else []
  }

  lemma PasswordNeverRejected(o: Outside, l: Ledger)
    ensures PostGrant(o, l, Password).result != Err(InvalidRefreshToken)
  {
  }

  lemma SignInRun(r: Race, o: Outside, l: Ledger, t: nat, base: Token, ahead: int)
    requires Stands(r, t, Sending(Password), l, base, ahead)
    ensures Stands(End(r, ObtainSteps(o, l, t, Password)), t, Leaving, SignIn(o, l).ledger, base, ahead)
  {
    PasswordNeverRejected(o, l);
    GrantRun(r, o, l, t, Password, base, ahead);
  }

  lemma RefreshRun(r: Race, o: Outside, l: Ledger, t: nat, base: Token, ahead: int)
    requires Stands(r, t, Refreshing, l, base, ahead)
    ensures Stands(End(r, RefreshSteps(o, l, t)), t, Leaving, ForceRefresh(o, l).ledger, base, ahead)
  {
    var r1 := Advance(r, ReadRefreshToken(t));
    var rest := RefreshSteps(o, l, t)[1..];
    assert RefreshSteps(o, l, t) == [ReadRefreshToken(t)] + rest;
    EndCons(r, ReadRefreshToken(t), rest);
    ForceRefreshCases(o, l);
    if l.token.refreshToken == "" {
      SignInRun(r1, o, l, t, base, ahead);
    } else {
      ExchangeRun(r1, o, l, t, base, ahead);
    }
  }

  lemma ExchangeRun(r: Race, o: Outside, l: Ledger, t: nat, base: Token, ahead: int)
    requires l.token.refreshToken != "" && Stands(r, t, Sending(RefreshToken(l.token.refreshToken)), l, base, ahead)
    ensures Stands(End(r, RefreshSteps(o, l, t)[1..]), t, Leaving, ForceRefresh(o, l).ledger, base, ahead)
  {
    var cred := RefreshToken(l.token.refreshToken);
    var first, posted := Obtain(o, l, cred), PostGrant(o, l, cred);
    GrantNeverPersistError(cred, o.answers(|l.grants|), o.clock(l.ticks));
    ForceRefreshCases(o, l);
    GrantRun(r, o, l, t, cred, base, ahead);
    var steps := ObtainSteps(o, l, t, cred);
    if posted.result == Err(InvalidRefreshToken) {
      assert first == posted;
      var again := ObtainSteps(o, first.ledger, t, Password);
      assert RefreshSteps(o, l, t)[1..] == steps + again;
      EndAppend(r, steps, again);
      SignInRun(End(r, steps), o, first.ledger, t, base, ahead);
    } else {
      assert RefreshSteps(o, l, t)[1..] == steps + [] == steps;
    }
  }

  /** What a caller does between its look and its unlock. */
  function InsideSteps(o: Outside, l: Ledger, t: nat, forced: bool): seq<Step> {
    var now, l1 := o.clock(l.ticks), l.(ticks := l.ticks + 1);
    if forced then RefreshSteps(o, l, t)
    else if l.token.IsZero() then ObtainSteps(o, l1, t, Password)
    else if Stale(l.token, now) then RefreshSteps(o, l1, t)
    else []
  }

  lemma InsideRun(r: Race, o: Outside, l: Ledger, t: nat, forced: bool, base: Token, ahead: int)
    requires Stands(r, t, LookPlace(l.token, forced, o.clock(l.ticks)), l, base, ahead)
    ensures Stands(End(r, InsideSteps(o, l, t, forced)), t, Leaving, One(o, l, forced).ledger, base, ahead)
  {
    if forced {
      RefreshRun(r, o, l, t, base, ahead);
    } else {
      LookedRun(r, o, l, t, base, ahead);
    }
  }

  lemma EmptyRun(r: Race, o: Outside, l: Ledger, t: nat, base: Token, ahead: int)
    requires l.token.IsZero() && Stands(r, t, Sending(Password), l, base, ahead)
    ensures Stands(End(r, InsideSteps(o, l, t, false)), t, Leaving,
                   SignIn(o, l.(ticks := l.ticks + 1)).ledger, base, ahead)
  {
    SignInRun(r, o, l.(ticks := l.ticks + 1), t, base, ahead);
  }

  lemma StaleRun(r: Race, o: Outside, l: Ledger, t: nat, base: Token, ahead: int)
    requires !l.token.IsZero() && Stale(l.token, o.clock(l.ticks)) && Stands(r, t, Refreshing, l, base, ahead)
    ensures Stands(End(r, InsideSteps(o, l, t, false)), t, Leaving,
                   ForceRefresh(o, l.(ticks := l.ticks + 1)).ledger, base, ahead)
  {
    var l1 := l.(ticks := l.ticks + 1);
    assert Stands(r, t, Refreshing, l1, base, ahead);
    RefreshRun(r, o, l1, t, base, ahead);
    assert InsideSteps(o, l, t, false) == RefreshSteps(o, l1, t);
  }

  lemma FreshRun(r: Race, o: Outside, l: Ledger, t: nat, base: Token, ahead: int)
    requires !l.token.IsZero() && !Stale(l.token, o.clock(l.ticks)) && Stands(r, t, Leaving, l, base, ahead)
    ensures Stands(End(r, InsideSteps(o, l, t, false)), t, Leaving, l.(ticks := l.ticks + 1), base, ahead)
  {
    assert End(r, []) == r;
  }

  lemma LookedRun(r: Race, o: Outside, l: Ledger, t: nat, base: Token, ahead: int)
    requires Stands(r, t, LookPlace(l.token, false, o.clock(l.ticks)), l, base, ahead)
    ensures Stands(End(r, InsideSteps(o, l, t, false)), t, Leaving, AccessToken(o, l).ledger, base, ahead)
  {
    AccessTokenCases(o, l);
    if l.token.IsZero() {
      EmptyRun(r, o, l, t, base, ahead);
    } else if Stale(l.token, o.clock(l.ticks)) {
      StaleRun(r, o, l, t, base, ahead);
    } else {
      FreshRun(r, o, l, t, base, ahead);
    }
  }

  /** All the steps of one undisturbed call. */
  function SoloSteps(o: Outside, l: Ledger, t: nat, forced: bool): seq<Step> {
    [TokenRace.Call(t, forced), Lock(t)] + [Look(t, o.clock(l.ticks))] + InsideSteps(o, l, t, forced) + [Unlock(t)]
  }

  /** An undisturbed caller leaves the machine as the call function says: the same token in the store and in the file,
      the same number of grants, and the mutex free again. */
  lemma SoloIsCall(r: Race, o: Outside, l: Ledger, t: nat, forced: bool)
    requires t < |r.at| && r.at[t] == Idle && r.holder == None && r.stored == l.token && l.written == None
    ensures var c, last := One(o, l, forced), End(r, SoloSteps(o, l, t, forced));
            && last.stored == c.ledger.token && last.grants == r.grants + |c.ledger.grants| - |l.grants|
            && last.file == (if c.ledger.written.Some? then c.ledger.written.value else r.file)
            && last.holder == None && t < |last.at| && last.at[t] == Idle
  {
    var enter := [TokenRace.Call(t, forced), Lock(t)] + [Look(t, o.clock(l.ticks))];
    var inside := InsideSteps(o, l, t, forced);
    Entering(r, t, forced, o.clock(l.ticks));
    InsideRun(End(r, enter), o, l, t, forced, r.file, r.grants - |l.grants|);
    EndAppend(r, enter, inside);
    EndAppend(r, enter + inside, [Unlock(t)]);
    Leave(End(End(r, enter), inside), t);
  }

  lemma Entering(r: Race, t: nat, forced: bool, now: int)
    requires t < |r.at| && r.at[t] == Idle && r.holder == None
    ensures var looked := End(r, [TokenRace.Call(t, forced), Lock(t)] + [Look(t, now)]);
            && t < |looked.at| && looked.at[t] == LookPlace(r.stored, forced, now) && looked.holder == Some(t)
            && looked.stored == r.stored && looked.file == r.file && looked.grants == r.grants
  {
    TwoSteps(r, TokenRace.Call(t, forced), Lock(t));
    EndAppend(r, [TokenRace.Call(t, forced), Lock(t)], [Look(t, now)]);
    EndCons(End(r, [TokenRace.Call(t, forced), Lock(t)]), Look(t, now), []);
    assert [Look(t, now)] + [] == [Look(t, now)];
  }

  lemma Leave(r: Race, t: nat)
    requires t < |r.at| && r.at[t] == Leaving
    ensures End(r, [Unlock(t)]) == r.Move(t, Idle).(holder := None)
  {
    EndCons(r, Unlock(t), []);
    assert [Unlock(t)] + [] == [Unlock(t)];
  }
}
