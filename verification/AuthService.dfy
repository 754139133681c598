/** Login, refresh, logout and session upkeep, each proved to do what the specification of the request says. */
module AuthService {
  import opened Types
  import opened SessionTable
  import opened SessionProtocol
  import opened RateLimiter
  import opened Requests
  import opened Store

  class AuthService {
    const store: Store

    constructor (store: Store)
      ensures this.store == store
    {
      this.store := store;
    }

    method Login(input: LoginInput)
      returns (r: Result<TokenPair, Error>)
      requires store.Wired() && FreshHash(store.World().core, input.newToken)
      modifies store, store.limiter
      ensures (store.World(), r) == Requests.Login(store.cfg, old(store.World()), input)
    {
      if input.answered < 1 {
        return Err(RateLimitDown);
      }
      var ipKey, emailKey := LoginIPKey(input.ip), LoginEmailKey(input.email);
      var passes := CheckLoginRateLimit(ipKey, input.email);
      if !passes {
        return Err(RateLimited);
      }
      if input.answered < 2 {
        return Err(RateLimitDown);
      }
      passes := CheckLoginRateLimit(emailKey, input.email);
      if !passes {
        return Err(RateLimited);
      }
      r := LoginPastLimits(input);
    }

    method CheckLoginRateLimit(key: string, email: string) returns (passes: bool)
      requires store.Wired()
      modifies store`audit, store.limiter
      ensures (store.World(), passes) == CheckLogin(store.cfg, old(store.World()), key, email)
    {
      var verdict := store.limiter.Check(key, store.now);
      passes := !verdict.blocked;
      if verdict.blocked {
        store.Log(None, LoginFailed(email, "rate_limited"));
        var max := MaxTierThreshold(store.limiter.tiers);
        if verdict.count >= max {
          store.Log(None, SecurityAlert("login_rate_limit"));
        }
      }
    }

    method LoginPastLimits(input: LoginInput)
      returns (r: Result<TokenPair, Error>)
      requires FreshHash(store.World().core, input.newToken)
      modifies store, store.limiter
      ensures (store.World(), r) == Admit(store.cfg, old(store.World()), input)
    {
      var found := FindByEmail(store.users, input.email, store.lastUser);
      if found.None? {
        store.Log(None, LoginFailed(input.email, "user_not_found"));
        return Err(InvalidCredentials);
      }
      var user := store.users[found.value];
      if !user.active {
        store.Log(None, LoginFailed(input.email, "user_inactive"));
        return Err(InvalidCredentials);
      }
      var needsRehash := store.cfg.verify(user.passwordHash, input.plain);
      if needsRehash.None? {
        store.Log(None, LoginFailed(input.email, "wrong_password"));
        return Err(InvalidCredentials);
      }
      if needsRehash.value {
        store.SaveUser(found.value, user.(passwordHash := input.newHash));
      }
      var pair := CreateSession(found.value, input.newToken);
      if input.answered >= 3 {
        store.limiter.Reset(LoginEmailKey(input.email));
      }
      if input.answered >= 4 {
        store.limiter.Reset(LoginIPKey(input.ip));
      }
      store.Log(found, LoginSucceeded(pair.sid));
      store.InvalidateUserCache(found.value, input.answered >= 5);
      r := Ok(pair);
    }

    method CreateSession(userId: UserId, newToken: Hash) returns (pair: TokenPair)
      requires userId in store.users && FreshHash(store.World().core, newToken)
      modifies store
      ensures (store.World(), pair) == Requests.CreateSession(store.cfg, old(store.World()), userId, newToken)
      ensures store.now == old(store.now)
    {
      var sid := store.InsertSession(userId, newToken);
      var access := AccessToken(userId, sid, (store.now + store.cfg.sessions.accessTTL) / SECOND);
      store.issued := store.issued + {access};
      store.Log(Some(userId), SessionCreated(sid));
      pair := TokenPair(access, newToken, store.now + store.cfg.sessions.refreshTTL, sid);
    }

    method Refresh(token: Hash, newToken: Hash, redis: bool) returns (r: Result<TokenPair, Error>)
      requires FreshHash(store.World().core, newToken)
      modifies store
      ensures (store.World(), r) == Requests.Refresh(store.cfg, old(store.World()), token, newToken, redis)
    {
      var found := FindByHash(store.sessions, token, Some(store.now), store.lastSession);
      if found.None? {
        r := HandleRefreshMiss(token);
        return;
      }
      var userId := store.sessions[found.value].userId;
      if userId !in store.users || !store.users[userId].active {
        return Err(InvalidSession);
      }
      store.RevokeWithTimestamp(found.value);
      var pair := CreateSession(userId, newToken);
      store.Log(Some(userId), SessionRefreshed(found.value, pair.sid));
      store.InvalidateUserCache(userId, redis);
      r := Ok(pair);
    }

    method HandleRefreshMiss(token: Hash) returns (r: Result<TokenPair, Error>)
      modifies store
      ensures (store.World(), r) == RefreshMiss(store.cfg, old(store.World()), token)
    {
      var found := FindByHash(store.sessions, token, None, store.lastSession);
      if found.None? {
        return Err(InvalidSession);
      }
      var session := store.sessions[found.value];
      if session.revoked || session.expiresAt < store.now {
        store.RevokeAllByUser(session.userId);
        store.Log(Some(session.userId), SessionRevoked(found.value, "refresh_token_reuse"));
        store.Log(Some(session.userId), SecurityAlert("refresh_token_reuse"));
        return Err(TokenReuse);
      }
      return Err(InvalidSession);
    }

    method Logout(token: Hash)
      modifies store
      ensures store.World() == Requests.Logout(store.cfg, old(store.World()), token)
    {
      var found := FindByHash(store.sessions, token, Some(store.now), store.lastSession);
      if found.Some? {
        var userId := store.sessions[found.value].userId;
        store.RevokeWithTimestamp(found.value);
        store.Log(Some(userId), LoggedOut(found.value));
        store.Log(Some(userId), SessionRevoked(found.value, "logout"));
      }
    }

    /** The Auth middleware; `signed` is the outcome of checking the token's RS256 signature. */
    method Authenticate(token: AccessToken, signed: bool) returns (r: Result<(UserId, SessionId), Error>)
      requires signed <==> token in store.issued
      modifies store
      ensures (store.World(), r) == Requests.Authenticate(store.cfg, old(store.World()), token)
    {
      if !signed || !token.Unexpired(store.now) {
        return Err(Unauthenticated);
      }
      if token.sub !in store.users || !store.users[token.sub].active {
        return Err(Unauthenticated);
      }
      var rows := store.TouchActivity(token.sid);
      if rows == 0 {
        return Err(Unauthenticated);
      }
      return Ok((token.sub, token.sid));
    }

    method RevokeSession(sid: SessionId, userId: UserId) returns (r: Result<(), Error>)
      modifies store
      ensures (store.World(), r) == Requests.RevokeSession(store.cfg, old(store.World()), sid, userId)
    {
      if sid !in store.sessions {
        return Err(NotFound);
      }
      if store.sessions[sid].userId != userId {
        return Err(NotOwner);
      }
      store.RevokeWithTimestamp(sid);
      store.Log(Some(userId), SessionRevoked(sid, "manual"));
      return Ok(());
    }

    method RevokeOtherSessions(userId: UserId, current: SessionId)
      modifies store
      ensures store.World() == Requests.RevokeOtherSessions(store.cfg, old(store.World()), userId, current)
    {
      store.RevokeAllByUserExceptCurrent(userId, current);
      store.Log(Some(userId), OthersRevoked);
    }
  }
}
