/** Exactly when logins and session requests succeed, what each refusal is, and what each leaves behind. */
module LoginOutcomes {
  import opened Types
  import opened SessionTable
  import opened SessionProtocol
  import opened RateLimiter
  import opened Requests
  import opened SessionRuns
  import opened SessionTheorems
  import opened LimiterRuns
  import opened UserRuns

  // ---- refused for its rate ----

  /** The count a Check answers is the one stored when it is done, whether the key was blocked, is now, or passes. */
  lemma CheckAnswersStoredCount(tiers: seq<Tier>, counterTTL: nat, keys: Keyspace, key: string, now: Time)
    requires counterTTL > 0
    ensures var (keys', verdict) := CheckKey(tiers, counterTTL, keys, key, now);
            verdict.count == CountAt(keys', key, now)
  {
  }

  /** What a refused attempt writes: an entry, and an alert once the stored count has reached every threshold. */
  ghost function RefusalEntries(cfg: Settings, keys: Keyspace, key: string, now: Time, email: string): seq<AuditEntry> {
    [AuditEntry(now, None, LoginFailed(email, "rate_limited"))]
    + if forall i | 0 <= i < |cfg.tiers| :: cfg.tiers[i].threshold <= CountAt(keys, key, now)
      then [AuditEntry(now, None, SecurityAlert("login_rate_limit"))]
      else []
  }

  lemma CheckLoginAudits(cfg: Settings, w: World, key: string, email: string)
    requires cfg.counterTTL > 0
    ensures var (w', passes) := CheckLogin(cfg, w, key, email);
            && (passes ==> w'.audit == w.audit)
            && (!passes ==> w'.audit == w.audit + RefusalEntries(cfg, w'.keys, key, w.core.now, email))
  {
    CheckAnswersStoredCount(cfg.tiers, cfg.counterTTL, w.keys, key, w.core.now);
    var (_, verdict) := CheckKey(cfg.tiers, cfg.counterTTL, w.keys, key, w.core.now);
    var max := MaxThreshold(cfg.tiers);
    assert IsMaxThreshold(cfg.tiers, max);
    assert verdict.count >= max <==> forall i | 0 <= i < |cfg.tiers| :: cfg.tiers[i].threshold <= verdict.count;
    var w' := CheckLogin(cfg, w, key, email).0;
    if verdict.blocked {
      assert w'.audit == w.audit + RefusalEntries(cfg, w'.keys, key, w.core.now, email);
    }
  }

  /**
   A login refused for its rate is put down to the IP key if that one is limited, else to the email key; the
   log gains the entry, and the alert exactly if that key's stored count has reached every threshold.
   */
  lemma RefusedLoginAudits(cfg: Settings, w: World, input: LoginInput, m: nat)
    requires FreshHash(w.core, input.newToken)
    requires 1 <= m && IsFirstBlocking(cfg.tiers, m) && cfg.counterTTL > 0
    requires Login(cfg, w, input).1 == Err(RateLimited)
    ensures var w' := Login(cfg, w, input).0;
            var ipKey, emailKey := LoginIPKey(input.ip), LoginEmailKey(input.email);
            var refused := if Limited(w.keys, ipKey, w.core.now, m) then ipKey else emailKey;
            w' == w.(keys := w'.keys, audit := w.audit + RefusalEntries(cfg, w'.keys, refused, w.core.now, input.email))
  {
    var ipKey, emailKey := LoginIPKey(input.ip), LoginEmailKey(input.email);
    LoginKeysAreSeparate(input.ip, input.email);
    var (w1, ipPasses) := CheckLogin(cfg, w, ipKey, input.email);
    CheckCounts(cfg, w, ipKey, emailKey, input.email, m);
    CheckLoginAudits(cfg, w, ipKey, input.email);
    CheckLoginIsAside(cfg, w, ipKey, input.email);
    if ipPasses {
      CheckLoginAudits(cfg, w1, emailKey, input.email);
      CheckLoginIsAside(cfg, w1, emailKey, input.email);
      AdmitKeys(cfg, CheckLogin(cfg, w1, emailKey, input.email).0, input);
    }
  }

  /** Redis gone before the first Check, or before a second one that is due, is what makes the limiter unavailable. */
  lemma LoginWithoutRedis(cfg: Settings, w: World, input: LoginInput, m: nat)
    requires FreshHash(w.core, input.newToken)
    requires 1 <= m && IsFirstBlocking(cfg.tiers, m) && cfg.counterTTL > 0
    ensures var (w', r) := Login(cfg, w, input);
            && (r == Err(RateLimitDown) <==>
                  || input.answered == 0
                  || (input.answered == 1 && !Limited(w.keys, LoginIPKey(input.ip), w.core.now, m)))
            && (r == Err(RateLimitDown) ==> w'.core == w.core && w'.audit == w.audit)
  {
    var ipKey, emailKey := LoginIPKey(input.ip), LoginEmailKey(input.email);
    LoginKeysAreSeparate(input.ip, input.email);
    CheckCounts(cfg, w, ipKey, emailKey, input.email, m);
    CheckLoginAudits(cfg, w, ipKey, input.email);
    var (w1, ipPasses) := CheckLogin(cfg, w, ipKey, input.email);
    if input.answered >= 2 && ipPasses {
      AdmitKeys(cfg, CheckLogin(cfg, w1, emailKey, input.email).0, input);
    }
  }

  // ---- the credentials ----

  /** The user is active, has the email, and the stored hash accepts the password. */
  predicate Knows(cfg: Settings, w: World, input: LoginInput, userId: UserId) {
    && userId in w.core.users && w.core.users[userId].active && w.core.users[userId].email == input.email
    && cfg.verify(w.core.users[userId].passwordHash, input.plain).Some?
  }

  /** Emails and ids as they are in every state of a run. */
  ghost predicate Orderly(w: World) {
    UniqueEmails(w) && forall u | u in w.core.users :: u <= w.lastUser
  }

  lemma RunsAreOrderly(cfg: Settings, ws: seq<World>, rs: seq<Request>, i: nat)
    requires Trace(cfg, ws, rs) && i < |ws| && UniqueEmails(ws[0])
    ensures Orderly(ws[i])
  {
    EmailsStayUnique(cfg, ws, rs, i, "", 0);
    TraceKeepsInv(cfg, ws, rs, i);
  }

  lemma CredentialsOutcome(cfg: Settings, w: World, input: LoginInput)
    requires Orderly(w)
    ensures var r := CheckCredentials(cfg, w, input);
            && (r.Ok? <==> exists u :: Knows(cfg, w, input, u))
            && (forall u | Knows(cfg, w, input, u) ::
                  r == Ok((u, cfg.verify(w.core.users[u].passwordHash, input.plain).value)))
            && (r == Err("user_not_found") <==> forall u | u in w.core.users :: w.core.users[u].email != input.email)
            && (r == Err("user_inactive") <==>
                  exists u :: u in w.core.users && w.core.users[u].email == input.email && !w.core.users[u].active)
  {
    var found := FindByEmail(w.core.users, input.email, w.lastUser);
    var r := CheckCredentials(cfg, w, input);
    forall u | u in w.core.users && w.core.users[u].email == input.email
      ensures found == Some(u)
    {
    }
    if r.Ok? {
      assert Knows(cfg, w, input, r.value.0);
    }
  }

  /** Whose password hash a successful login renews, and how. */
  function HashAfter(cfg: Settings, user: User, input: LoginInput): string {
    if cfg.verify(user.passwordHash, input.plain) == Some(true) then input.newHash else user.passwordHash
  }

  /**
   Past both limits a login succeeds if and only if some active user has the email and a stored hash that
   accepts the password; it then signs in that user, and the stored hash is the new one exactly if the old one
   asked for it.  Otherwise it says no more than InvalidCredentials, and logs why.
   */
  lemma AdmitOutcome(cfg: Settings, w: World, input: LoginInput)
    requires Orderly(w) && FreshHash(w.core, input.newToken)
    ensures var (w', r) := Admit(cfg, w, input);
            && (r.Ok? <==> exists u :: Knows(cfg, w, input, u))
            && (forall u | Knows(cfg, w, input, u) ::
                  && r.value.access.sub == u
                  && w'.core.users ==
                     w.core.users[u := w.core.users[u].(passwordHash := HashAfter(cfg, w.core.users[u], input))]
                  && w'.cache == (if input.answered >= 5 then w.cache - {u} else w.cache)
                  && w'.audit == w.audit + [AuditEntry(w.core.now, Some(u), SessionCreated(r.value.sid))]
                                 + [AuditEntry(w.core.now, Some(u), LoginSucceeded(r.value.sid))])
            && (r.Err? ==>
                  && r == Err(InvalidCredentials)
                  && exists reason :: w' == Log(w, None, LoginFailed(input.email, reason))
                                   && CheckCredentials(cfg, w, input) == Err(reason))
  {
    CredentialsOutcome(cfg, w, input);
    match CheckCredentials(cfg, w, input)
    case Err(_) =>
    case Ok((id, needsRehash)) =>
      assert Knows(cfg, w, input, id);
      assert forall u | Knows(cfg, w, input, u) :: u == id;
      WelcomeKeeps(cfg, Rehash(cfg, w, id, needsRehash, input.newHash), id, input);
      assert w.core.users[id].(passwordHash := w.core.users[id].passwordHash) == w.core.users[id];
  }

  lemma WelcomeKeeps(cfg: Settings, w: World, id: UserId, input: LoginInput)
    requires id in w.core.users && FreshHash(w.core, input.newToken)
    ensures var (w', pair) := Welcome(cfg, w, id, input);
            && w'.core.users == w.core.users && pair.access.sub == id
            && w'.cache == (if input.answered >= 5 then w.cache - {id} else w.cache)
            && w'.audit == w.audit + [AuditEntry(w.core.now, Some(id), SessionCreated(pair.sid))]
                           + [AuditEntry(w.core.now, Some(id), LoginSucceeded(pair.sid))]
  {
  }

  /** The same of whole logins, in every state of every run that begins with unique emails. */
  lemma LoginOutcome(cfg: Settings, ws: seq<World>, rs: seq<Request>, i: nat, input: LoginInput, m: nat)
    requires Trace(cfg, ws, rs) && i < |ws| && UniqueEmails(ws[0])
    requires FreshHash(ws[i].core, input.newToken) && input.answered >= 2
    requires 1 <= m && IsFirstBlocking(cfg.tiers, m) && cfg.counterTTL > 0
    ensures var w, (w', r) := ws[i], Login(cfg, ws[i], input);
            var limited := Limited(w.keys, LoginIPKey(input.ip), w.core.now, m)
                           || Limited(w.keys, LoginEmailKey(input.email), w.core.now, m);
            && (r.Ok? <==> !limited && exists u :: Knows(cfg, w, input, u))
            && (r == Err(RateLimited) <==> limited)
            && (r == Err(InvalidCredentials) <==> !limited && !exists u :: Knows(cfg, w, input, u))
            && (r.Ok? ==> forall u | Knows(cfg, w, input, u) ::
                  && r.value.access.sub == u
                  && w'.core.users ==
                     w.core.users[u := w.core.users[u].(passwordHash := HashAfter(cfg, w.core.users[u], input))])
            && (r.Err? ==> w'.core == w.core)
  {
    RunsAreOrderly(cfg, ws, rs, i);
    LoginHonoursLimits(cfg, ws[i], input, m);
    var checked := LoginIsAdmit(cfg, ws[i], input);
    AdmitOutcome(cfg, checked, input);
    assert forall u :: Knows(cfg, checked, input, u) <==> Knows(cfg, ws[i], input, u);
    PastLimitsIsAdmit(cfg, ws[i], input, checked);
  }

  lemma PastLimitsIsAdmit(cfg: Settings, w: World, input: LoginInput, checked: World)
    requires FreshHash(w.core, input.newToken) && input.answered >= 2 && checked.core == w.core
    requires Login(cfg, w, input) == Admit(cfg, checked, input)
          || (Login(cfg, w, input).0 == checked && Login(cfg, w, input).1.Err?)
    ensures Login(cfg, w, input).1 in {Err(RateLimited), Err(InvalidCredentials)} || Login(cfg, w, input).1.Ok?
    ensures Login(cfg, w, input).1 != Err(RateLimited) ==>
              Login(cfg, w, input).1.Ok? == Admit(cfg, checked, input).1.Ok?
  {
  }

  /**
   Where the new hash is one that accepts the password as it is, nobody who has logged in is asked for a rehash
   again.
   */
  lemma RehashIsFinal(cfg: Settings, w: World, input: LoginInput)
    requires Orderly(w) && FreshHash(w.core, input.newToken)
    requires cfg.verify(input.newHash, input.plain) == Some(false)
    requires Admit(cfg, w, input).1.Ok?
    ensures var (w', r) := Admit(cfg, w, input);
            r.value.access.sub in w'.core.users
            && cfg.verify(w'.core.users[r.value.access.sub].passwordHash, input.plain) == Some(false)
  {
    AdmitOutcome(cfg, w, input);
    var u :| Knows(cfg, w, input, u);
  }

  // ---- refresh ----

  /** A token without a row is invalid, and nothing happens. */
  lemma UnknownTokenIsInvalid(cfg: Settings, w: World, token: Hash, newToken: Hash, redis: bool)
    requires FreshHash(w.core, newToken)
    requires forall id | id in w.core.rows :: w.core.rows[id].tokenHash != token
    ensures Refresh(cfg, w, token, newToken, redis) == (w, Err(InvalidSession))
  {
  }

  /**
   What a successful refresh of a session leaves behind: the session revoked now, a successor of the same owner
   with the new token and a full refresh lifetime, an access token naming both, and no cached permissions.
   */
  lemma RefreshLeaves(cfg: Settings, w: World, id: SessionId, newToken: Hash, redis: bool)
    requires SessionInv(cfg, w) && FreshHash(w.core, newToken)
    requires id in w.core.rows && w.core.rows[id].Active(w.core.now)
    ensures var owner := w.core.rows[id].userId;
            var (w', r) := Refresh(cfg, w, w.core.rows[id].tokenHash, newToken, redis);
            && r.Ok? && r.value.sid !in w.core.rows
            && r.value == TokenPair(AccessToken(owner, r.value.sid, (w.core.now + cfg.sessions.accessTTL) / SECOND),
                                    newToken, w.core.now + cfg.sessions.refreshTTL, r.value.sid)
            && w'.core.issued == w.core.issued + {r.value.access}
            && w'.core.rows ==
               w.core.rows[id := w.core.rows[id].(revoked := true, revokedAt := Some(w.core.now))]
                          [r.value.sid := Session(owner, newToken, r.value.refreshExpiresAt, false, None,
                              w.core.now, w.core.now)]
            && w'.core.users == w.core.users
            && w'.cache == (if redis then w.cache - {owner} else w.cache)
            && w'.audit == w.audit + [AuditEntry(w.core.now, Some(owner), SessionCreated(r.value.sid))]
                           + [AuditEntry(w.core.now, Some(owner), SessionRefreshed(id, r.value.sid))]
  {
    var token := w.core.rows[id].tokenHash;
    TokensAreUnique(cfg, w, token, id);
    assert FindByHash(w.core.rows, token, Some(w.core.now), w.core.lastId) == Some(id);
    assert Open(w, id);
    RotateLeaves(cfg, w, id, newToken, redis);
  }

  lemma RotateLeaves(cfg: Settings, w: World, id: SessionId, newToken: Hash, redis: bool)
    requires Inv(cfg.sessions, w.core) && FreshHash(w.core, newToken)
    requires id in w.core.rows && !w.core.rows[id].revoked && w.core.rows[id].userId in w.core.users
    ensures var owner := w.core.rows[id].userId;
            var (w', pair) := Rotate(cfg, w, id, newToken, redis);
            && pair.sid !in w.core.rows
            && pair == TokenPair(AccessToken(owner, pair.sid, (w.core.now + cfg.sessions.accessTTL) / SECOND),
                                 newToken, w.core.now + cfg.sessions.refreshTTL, pair.sid)
            && w'.core.issued == w.core.issued + {pair.access}
            && w'.core.rows ==
               w.core.rows[id := w.core.rows[id].(revoked := true, revokedAt := Some(w.core.now))]
                          [pair.sid := Session(owner, newToken, pair.refreshExpiresAt, false, None, w.core.now,
                              w.core.now)]
            && w'.core.users == w.core.users
            && w'.cache == (if redis then w.cache - {owner} else w.cache)
            && w'.audit == w.audit + [AuditEntry(w.core.now, Some(owner), SessionCreated(pair.sid))]
                           + [AuditEntry(w.core.now, Some(owner), SessionRefreshed(id, pair.sid))]
  {
  }

  /** A reuse is logged against the owner of the token, naming its session, with an alert. */
  lemma ReuseIsLogged(cfg: Settings, w: World, id: SessionId, newToken: Hash, redis: bool)
    requires SessionInv(cfg, w) && FreshHash(w.core, newToken)
    requires id in w.core.rows && (w.core.rows[id].revoked || w.core.rows[id].expiresAt < w.core.now)
    ensures var owner := Some(w.core.rows[id].userId);
            var (w', r) := Refresh(cfg, w, w.core.rows[id].tokenHash, newToken, redis);
            && r == Err(TokenReuse)
            && w'.audit == w.audit + [AuditEntry(w.core.now, owner, SessionRevoked(id, "refresh_token_reuse"))]
                           + [AuditEntry(w.core.now, owner, SecurityAlert("refresh_token_reuse"))]
            && w' == w.(core := w.core.(rows := w'.core.rows), audit := w'.audit)
  {
    var token := w.core.rows[id].tokenHash;
    TokensAreUnique(cfg, w, token, id);
    assert FindByHash(w.core.rows, token, Some(w.core.now), w.core.lastId).None?;
    assert FindByHash(w.core.rows, token, None, w.core.lastId) == Some(id);
  }

  // ---- acting on sessions ----

  /** Logging out with the token of an active session revokes it now and says so twice; any other token does nothing. */
  lemma LogoutOutcome(cfg: Settings, w: World, id: SessionId)
    requires SessionInv(cfg, w) && id in w.core.rows
    ensures var row, w' := w.core.rows[id], Logout(cfg, w, w.core.rows[id].tokenHash);
            var revoked := row.(revoked := true, revokedAt := Some(w.core.now));
            && (!row.Active(w.core.now) ==> w' == w)
            && (row.Active(w.core.now) ==>
                  w' == w.(core := w.core.(rows := w.core.rows[id := revoked]),
                           audit := w.audit + [AuditEntry(w.core.now, Some(row.userId), LoggedOut(id))]
                                    + [AuditEntry(w.core.now, Some(row.userId), SessionRevoked(id, "logout"))]))
  {
    var token := w.core.rows[id].tokenHash;
    TokensAreUnique(cfg, w, token, id);
    if w.core.rows[id].Active(w.core.now) {
      assert FindByHash(w.core.rows, token, Some(w.core.now), w.core.lastId) == Some(id);
    } else {
      assert FindByHash(w.core.rows, token, Some(w.core.now), w.core.lastId).None?;
    }
  }

  /** Revoking the others revokes, now, every open session of the user but the current one, and is logged once. */
  lemma RevokeOthersOutcome(cfg: Settings, w: World, userId: UserId, current: SessionId)
    ensures var w' := RevokeOtherSessions(cfg, w, userId, current);
            && w'.core.rows.Keys == w.core.rows.Keys
            && (forall id | id in w.core.rows ::
                  w'.core.rows[id] ==
                  if w.core.rows[id].userId == userId && id != current && !w.core.rows[id].revoked
                  then w.core.rows[id].(revoked := true, revokedAt := Some(w.core.now))
                  else w.core.rows[id])
            && w'.audit == w.audit + [AuditEntry(w.core.now, Some(userId), OthersRevoked)]
  {
  }

  /** An accepted request records its instant as the session's last activity, and changes nothing else. */
  lemma AcceptanceIsRecorded(cfg: Settings, w: World, token: AccessToken)
    ensures var (w', r) := Authenticate(cfg, w, token);
            && (r.Ok? ==>
                  && token.sid in w.core.rows
                  && w'.core.rows == w.core.rows[token.sid := w.core.rows[token.sid].(lastActivityAt := w.core.now)])
            && (r.Err? ==> w' == w)
            && w' == w.(core := w.core.(rows := w'.core.rows))
  {
  }

  /** An unknown session is not found, a foreign one is refused, and both leave everything as it was. */
  lemma RevokeSessionOutcome(cfg: Settings, w: World, sid: SessionId, userId: UserId)
    ensures var (w', r) := RevokeSession(cfg, w, sid, userId);
            && (r == Err(NotFound) <==> sid !in w.core.rows)
            && (r == Err(NotOwner) <==> sid in w.core.rows && w.core.rows[sid].userId != userId)
            && (r.Err? ==> w' == w)
            && (r.Ok? ==>
                  && sid in w'.core.rows && w'.core.rows[sid].revoked
                  && w'.audit == w.audit + [AuditEntry(w.core.now, Some(userId), SessionRevoked(sid, "manual"))]
                  && (!w.core.rows[sid].revoked ==> w'.core.rows[sid].revokedAt == Some(w.core.now))
                  && (w.core.rows[sid].revoked ==> w'.core.rows[sid] == w.core.rows[sid]))
  {
  }

  /**
   In every state of every run a cleanup deletes exactly the rows that expired, or were revoked, more than the
   retention ago.
   */
  lemma RetentionIsExact(cfg: Settings, ws: seq<World>, rs: seq<Request>, i: nat, id: SessionId)
    requires Trace(cfg, ws, rs) && i < |ws| && id in ws[i].core.rows
    ensures var now, row := ws[i].core.now, ws[i].core.rows[id];
            id !in CleanupSessions(cfg, ws[i]).core.rows <==>
            || row.expiresAt + cfg.sessions.retention < now
            || (row.revokedAt.Some? && row.revokedAt.value + cfg.sessions.retention < now)
  {
    TraceKeepsInv(cfg, ws, rs, i);
    assert RowFits(cfg.sessions, ws[i].core.rows[id], ws[i].core.made[id]);
  }
}
