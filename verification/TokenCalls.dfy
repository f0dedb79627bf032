/** The token lifecycle (internal/readest/auth.go) as a function of every answer, clock reading and save. */
module TokenCalls {
  import opened Wrappers
  import opened Errors
  import opened Token
  import opened StateFile

  const PRE_REQUEST_GUARD_SECONDS := 60

  /** What a grant submits. */
  datatype Credential = Password | RefreshToken(token: string)

  datatype TokenResponse = TokenResponse(accessToken: string, refreshToken: string, expiresAt: int, expiresIn: int)

  /** How one POST to the token endpoint ends. */
  datatype Answer = NoAnswer | Status(code: int) | Undecodable | Decoded(response: TokenResponse)

  /** classifyStatus */
  function StatusError(c: Credential, code: int): ReadestError {
    if code == 429 then AuthRateLimited
    else if c.Password? && (code == 400 || code == 401) then InvalidCredentials
    else if c.RefreshToken? && (code == 400 || code == 401 || code == 403) then InvalidRefreshToken
    else AuthNetwork
  }

  /** tokenResponse.token */
  function ToToken(r: TokenResponse, now: int): Result<Token, ReadestError> {
    if r.accessToken == "" || r.refreshToken == "" then Err(AuthMalformed)
    else Ok(Token(r.accessToken, r.refreshToken,
                  if r.expiresAt == 0 && r.expiresIn > 0 then now + r.expiresIn else r.expiresAt, r.expiresIn))
  }

  function GrantResult(c: Credential, a: Answer, now: int): Result<Token, ReadestError> {
    match a
    case NoAnswer => Err(AuthNetwork)
    case Status(code) => Err(StatusError(c, code))
    case Undecodable => Err(AuthMalformed)
    case Decoded(r) => ToToken(r, now)
  }

  datatype Grant = Grant(credential: Credential, result: Result<Token, ReadestError>)

  predicate Stale(t: Token, now: int) {
    t.ShouldRefresh(now) || t.ExpiresWithin(now, PRE_REQUEST_GUARD_SECONDS)
  }

  /******* Calls as functions of the answers *******/

  /** Everything outside that a call can meet, by the number of the grant, clock reading or save. */
  datatype Outside = Outside(answers: nat -> Answer, clock: nat -> int, faults: Faults)

  /** Where the authenticator stands: the stored token, the clock readings, grants and saves so far, and the last token
      set that reached the state file. */
  datatype Ledger = Ledger(token: Token, ticks: nat, grants: seq<Grant>, saves: nat, written: Option<Token>)

  datatype Call<+T> = Call(ledger: Ledger, result: Result<T, ReadestError>)

  /** grant, which reads the clock only for a response it could decode. */
  function PostGrant(o: Outside, l: Ledger, c: Credential): Call<Token> {
    var answer := o.answers(|l.grants|);
    var r := GrantResult(c, answer, o.clock(l.ticks));
    Call(l.(ticks := if answer.Decoded? then l.ticks + 1 else l.ticks, grants := l.grants + [Grant(c, r)]), r)
  }

  /** A grant and, if it succeeded, persist: the token is in memory whatever becomes of the save. */
  function Obtain(o: Outside, l: Ledger, c: Credential): Call<Token> {
    var g := PostGrant(o, l, c);
    if g.result.Err? then g
    else
      var saved := g.ledger.(token := g.result.value, saves := l.saves + 1,
                             written := if Replaces(o.faults, l.saves) then Some(g.result.value) else l.written);
      Call(saved, if SaveOk(o.faults, l.saves) then g.result else Err(PersistFailed))
  }

  function SignIn(o: Outside, l: Ledger): Call<Token> { Obtain(o, l, Password) }

  function Refresh(o: Outside, l: Ledger): Call<Token> {
    if l.token.refreshToken == "" then Call(l, Err(InvalidRefreshToken))
      else Obtain(o, l, RefreshToken(l.token.refreshToken))
  }

  function Bearer(c: Call<Token>): Call<string> {
    Call(c.ledger, if c.result.Ok? then Ok(c.result.value.accessToken) else Err(c.result.error))
  }

  function ForceRefresh(o: Outside, l: Ledger): Call<string> {
    var c := Refresh(o, l);
    if c.result == Err(InvalidRefreshToken) then Bearer(SignIn(o, c.ledger)) else Bearer(c)
  }

  function AccessToken(o: Outside, l: Ledger): Call<string> {
    var now, l' := o.clock(l.ticks), l.(ticks := l.ticks + 1);
    if l.token.IsZero() then Bearer(SignIn(o, l'))
    else if Stale(l.token, now) then ForceRefresh(o, l')
    else Call(l', Ok(l.token.accessToken))
  }
}
