/** The authentication service as it runs for one request at a time: the repository statements on
    the `refresh_tokens` and `users` tables and the handlers that call them in order. */
module AuthService {
  import opened Wrappers
  import T = TokenRotation
  import M = MfaLifecycle

  /** What a valid refresh token says. */
  datatype Claims = Claims(id: T.TokenId, user: int)

  /** UPDATE users ... WHERE id = $1: nothing happens without the row. */
  function Put(accounts: map<int, M.Account>, user: int, f: M.Account -> M.Account): map<int, M.Account> {
    if user in accounts then accounts[user := f(accounts[user])] else accounts
  }

  class Service {
    var rows: map<T.TokenId, T.Row>
    var nextId: T.TokenId
    var accounts: map<int, M.Account>
    var active: set<int>
    const ttl: int
    const mfa: M.Config

    constructor (ttl: int, mfa: M.Config)
      ensures rows == map[] && nextId == 0 && accounts == map[] && active == {}
      ensures this.ttl == ttl && this.mfa == mfa
    {
      rows, nextId, accounts, active := map[], 0, map[], {};
      this.ttl, this.mfa := ttl, mfa;
    }

    /** Ids already handed out are never drawn again. */
    ghost predicate Valid()
      reads this
    {
      forall id :: id in rows ==> id < nextId
    }

    // ---- Repository

    method InsertRefreshToken(id: T.TokenId, user: int, expiresAt: int) returns (ok: bool)
      modifies this`rows
      ensures ok <==> id !in old(rows)
      ensures rows == if ok then T.InsertRow(old(rows), id, user, expiresAt) else old(rows)
    {
      ok := id !in rows;
      if ok {
        rows := rows[id := T.Row(user, expiresAt, None, None)];
      }
    }

    method RevokeRefreshToken(id: T.TokenId, next: Option<T.TokenId>, now: nat)
      modifies this`rows
      ensures rows == T.RevokeRow(old(rows), id, next, now)
    {
      if id in rows && rows[id].revokedAt == None {
        rows := rows[id := rows[id].(revokedAt := Some(now), replacedBy := next)];
      }
    }

    method SetMFASecret(user: int, secret: string)
      modifies this`accounts
      ensures accounts == Put(old(accounts), user, a => M.SetSecret(a, secret))
    {
      if user in accounts {
        accounts := accounts[user := accounts[user].(secret := Some(secret))];
      }
    }

    method EnableMFA(user: int)
      modifies this`accounts
      ensures accounts == Put(old(accounts), user, a => M.Enable(a))
    {
      if user in accounts {
        accounts := accounts[user := accounts[user].(enabled := true)];
      }
    }

    method DisableMFA(user: int)
      modifies this`accounts
      ensures accounts == Put(old(accounts), user, a => M.Disable(a))
    {
      if user in accounts {
        accounts := accounts[user := M.Account(false, None)];
      }
    }

    // ---- Handlers

    method NewTokenID() returns (id: T.TokenId)
      requires Valid()
      modifies this`nextId
      ensures Valid() && id !in rows && id == old(nextId) && nextId == id + 1
    {
      id := nextId;
      nextId := nextId + 1;
    }

    predicate PassesMFA(user: int, otp: string, clock: int)
      reads this
      requires user in accounts
    {
      accounts[user].enabled ==> M.CodeOk(mfa, accounts[user], otp, clock)
    }

    /** Login once the password has been checked. */
    method Login(user: int, otp: string, clock: int) returns (out: Option<T.TokenId>)
      requires Valid()
      modifies this
      ensures Valid() && accounts == old(accounts) && active == old(active)
      ensures out.Some? <==> user in active && user in accounts && PassesMFA(user, otp, clock)
      ensures out.Some? ==> out.value !in old(rows) && rows == T.InsertRow(old(rows), out.value, user, clock + ttl)
      ensures out.None? ==> rows == old(rows)
    {
      if user !in active || user !in accounts {
        return None;
      }
      var account := accounts[user];
      if account.enabled {
        if account.secret == None || account.secret.value == "" || otp == "" {
          return None;
        }
        if !mfa.accepts(account.secret.value, otp, clock) {
          return None;
        }
      }
      var id := NewTokenID();
      var ok := InsertRefreshToken(id, user, clock + ttl);
      out := Some(id);
    }

    /** Refresh for the claims of a token whose signature has been checked. */
    method Refresh(id: T.TokenId, user: int, clock: int, now: nat) returns (out: Option<T.TokenId>)
      requires Valid()
      modifies this
      ensures Valid() && accounts == old(accounts) && active == old(active)
      ensures out.Some? <==> T.Accepts(old(rows), id, user, clock) && user in active
      ensures out.Some? ==> out.value !in old(rows) && rows == T.Refreshed(old(rows), id, out.value, clock + ttl, now)
      ensures out.None? ==> rows == old(rows)
    {
      if id !in rows {
        return None;
      }
      var rec := rows[id];
      if rec.user != user {
        return None;
      }
      if rec.revokedAt != None || clock > rec.expiresAt {
        return None;
      }
      if rec.user !in active {
        return None;
      }
      var successor := NewTokenID();
      RevokeRefreshToken(id, Some(successor), now);
      var ok := InsertRefreshToken(successor, rec.user, clock + ttl);
      out := Some(successor);
    }

    /** Logout with the claims of the refresh token in the body, None without a valid one; false is the
        answer 403 for somebody else's token. */
    method Logout(claims: Option<Claims>, caller: int, now: nat) returns (ok: bool)
      requires Valid()
      modifies this`rows
      ensures Valid() && (ok <==> claims.None? || claims.value.user == caller)
      ensures rows == if ok && claims.Some? then T.RevokeRow(old(rows), claims.value.id, None, now) else old(rows)
    {
      if claims.Some? {
        if claims.value.user != caller {
          return false;
        }
        RevokeRefreshToken(claims.value.id, None, now);
      }
      ok := true;
    }

    method MFAEnroll(user: int, secret: string) returns (ok: bool)
      modifies this`accounts
      ensures ok <==> user in old(accounts) && !old(accounts)[user].enabled
      ensures accounts == Put(old(accounts), user, a => M.AfterEnroll(a, secret))
    {
      if user !in accounts || accounts[user].enabled {
        return false;
      }
      SetMFASecret(user, secret);
      ok := true;
    }

    method MFAVerify(user: int, code: string, now: int) returns (ok: bool)
      modifies this`accounts
      ensures ok <==> user in old(accounts) && M.CodeOk(mfa, old(accounts)[user], code, now)
      ensures accounts == Put(old(accounts), user, a => M.AfterVerify(mfa, a, code, now))
    {
      if code == "" || user !in accounts {
        return false;
      }
      var account := accounts[user];
      if account.secret == None || account.secret.value == "" {
        return false;
      }
      if !mfa.accepts(account.secret.value, code, now) {
        return false;
      }
      EnableMFA(user);
      ok := true;
    }

    /** Switching off what is off already succeeds without a code. */
    method MFADisable(user: int, code: string, now: int) returns (ok: bool)
      modifies this`accounts
      ensures ok <==> user in old(accounts) && (old(accounts)[user].enabled ==> M.CodeOk(mfa, old(accounts)[user], code, now))
      ensures accounts == Put(old(accounts), user, a => M.AfterDisable(mfa, a, code, now))
    {
      if user !in accounts {
        return false;
      }
      var account := accounts[user];
      if !account.enabled {
        return true;
      }
      if code == "" || account.secret == None || account.secret.value == "" {
        return false;
      }
      if !mfa.accepts(account.secret.value, code, now) {
        return false;
      }
      DisableMFA(user);
      ok := true;
    }
  }
}
