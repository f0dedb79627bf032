/** The authenticator (internal/readest/auth.go): the calls that hold the mutex, and what they are built from. */
module Auth {
  import opened Wrappers
  import opened Errors
  import opened Token
  import opened State
  import opened StateFile
  import opened TokenCalls

  predicate TokenChange(d0: Data, file0: Option<File>, written0: Option<Token>, d1: Data, file1: Option<File>,
                        written1: Option<Token>)
  {
    && d1 == d0.(token := d1.token)
    && ((written1 == written0 && file1 == file0)
        || (written1.Some? && file1 == Some(File(Whole(d0.(token := written1.value)), true))))
  }

  /** The state file is as it was, or a complete copy of the store in which only the token is another. */
  ghost predicate TokenImage(file: Option<File>, file0: Option<File>, d0: Data) {
    || file == file0
    || (&& file.Some? && file.value.synced && file.value.contents.Whole?
        && file.value.contents.data == d0.(token := file.value.contents.data.token))
  }

  ghost predicate TokenImages(images: seq<Disk>, n: nat, file0: Option<File>, d0: Data) {
    forall i :: n <= i < |images| ==> TokenImage(images[i].target, file0, d0)
  }

  /** The store is as it was but for its token. */
  ghost predicate TokenStores(stores: seq<Data>, n: nat, d0: Data) {
    forall i :: n <= i < |stores| ==> stores[i] == d0.(token := stores[i].token)
  }

  class Auth {
    const store: FileStore
    const answers: nat -> Answer
    const clock: nat -> int
    var ticks: nat
    var grants: seq<Grant>
    ghost var written: Option<Token>

    constructor (store: FileStore, answers: nat -> Answer, clock: nat -> int)
      ensures this.store == store && this.answers == answers && this.clock == clock
      ensures ticks == 0 && grants == [] && written == None
    {
      this.store, this.answers, this.clock := store, answers, clock;
      ticks, grants, written := 0, [], None;
    }

    ghost function World(): Outside
      reads this
    {
      Outside(answers, clock, store.faults)
    }

    ghost function View(): Ledger
      reads this, store
    {
      Ledger(store.data.token, ticks, grants, store.saves, written)
    }

    /** What a call may do to the store: change the token, and write the file with nothing else changed. */
    twostate predicate OnlyToken()
      reads this, store
    {
      && store.Valid()
      && old(store.images) <= store.images && TokenImages(store.images, |old(store.images)|, old(store.disk.target),
                                                          old(store.data))
      && old(store.stores) <= store.stores && TokenStores(store.stores, |old(store.stores)|, old(store.data))
      && TokenChange(old(store.data), old(store.disk.target), old(written), store.data, store.disk.target, written)
    }

    method Now() returns (now: int)
      modifies this`ticks
      ensures now == clock(old(ticks)) && ticks == old(ticks) + 1
    {
      now := clock(ticks);
      ticks := ticks + 1;
    }

    method Post(c: Credential) returns (r: Result<Token, ReadestError>)
      modifies this`ticks, this`grants
      ensures Call(View(), r) == PostGrant(World(), old(View()), c)
    {
      var answer := answers(|grants|);
      match answer {
        case NoAnswer => r := Err(AuthNetwork);
        case Status(code) => r := Err(StatusError(c, code));
        case Undecodable => r := Err(AuthMalformed);
        case Decoded(response) =>
          var now := Now();
          r := ToToken(response, now);
      }
      grants := grants + [Grant(c, r)];
    }

    method Persist(t: Token) returns (ok: bool)
      requires store.Valid()
      modifies store, this`written
      ensures OnlyToken()
      ensures View() == old(View()).(token := t, saves := old(store.saves) + 1,
                                     written := if Replaces(store.faults, old(store.saves)) then Some(t)
                                       else old(written))
      ensures ok == SaveOk(store.faults, old(store.saves))
    {
      store.SetToken(t);
      ok := store.Save();
      if Replaces(store.faults, old(store.saves)) {
        written := Some(t);
      }
    }

    method SignIn() returns (r: Result<Token, ReadestError>)
      requires store.Valid()
      modifies this, store
      ensures OnlyToken() && Call(View(), r) == TokenCalls.SignIn(World(), old(View()))
    {
      r := Post(Password);
      if r.Err? {
        return r;
      }
      var ok := Persist(r.value);
      if !ok {
        r := Err(PersistFailed);
      }
    }

    method Refresh() returns (r: Result<Token, ReadestError>)
      requires store.Valid()
      modifies this, store
      ensures OnlyToken() && Call(View(), r) == TokenCalls.Refresh(World(), old(View()))
    {
      var current := store.data.token;
      if current.refreshToken == "" {
        return Err(InvalidRefreshToken);
      }
      r := Post(RefreshToken(current.refreshToken));
      if r.Err? {
        return r;
      }
      var ok := Persist(r.value);
      if !ok {
        r := Err(PersistFailed);
      }
    }

    method Reauth() returns (r: Result<string, ReadestError>)
      requires store.Valid()
      modifies this, store
      ensures OnlyToken() && Call(View(), r) == Bearer(TokenCalls.SignIn(World(), old(View())))
    {
      var t := SignIn();
      if t.Err? {
        return Err(t.error);
      }
      return Ok(t.value.accessToken);
    }

    method ForceRefresh() returns (r: Result<string, ReadestError>)
      requires store.Valid()
      modifies this, store
      ensures OnlyToken() && Call(View(), r) == TokenCalls.ForceRefresh(World(), old(View()))
    {
      var t := Refresh();
      if t.Ok? {
        return Ok(t.value.accessToken);
      }
      if t.error == InvalidRefreshToken {
        r := Reauth();
        return r;
      }
      return Err(t.error);
    }

    method AccessToken() returns (r: Result<string, ReadestError>)
      requires store.Valid()
      modifies this, store
      ensures OnlyToken() && Call(View(), r) == TokenCalls.AccessToken(World(), old(View()))
    {
      var current := store.data.token;
      var now := Now();
      if current.IsZero() {
        var t := SignIn();
        if t.Err? {
          return Err(t.error);
        }
        return Ok(t.value.accessToken);
      } else if current.ShouldRefresh(now) || current.ExpiresWithin(now, PRE_REQUEST_GUARD_SECONDS) {
        var t := Refresh();
        if t.Ok? {
          return Ok(t.value.accessToken);
        }
        if t.error == InvalidRefreshToken {
          r := Reauth();
          return r;
        }
        return Err(t.error);
      } else {
        return Ok(current.accessToken);
      }
    }
  }
}
