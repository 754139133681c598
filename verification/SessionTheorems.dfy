/** What the session invariants mean for whoever holds a token. */
module SessionTheorems {
  import opened Types
  import opened SessionTable
  import opened SessionProtocol
  import opened Requests
  import opened SessionRuns

  // ---- one live session per lineage ----

  function OpenSessions(w: World, userId: UserId): set<SessionId> {
    OpenOf(w.core, userId)
  }

  /** An injection into a set bounds the size of its domain. */
  lemma {:induction false} InjectionSize(from: set<nat>, f: map<nat, nat>, to: set<nat>)
    requires from <= f.Keys
    requires forall x | x in from :: f[x] in to
    requires forall x, y | x in from && y in from && f[x] == f[y] :: x == y
    ensures |from| <= |to|
  {
    if from != {} {
      var x :| x in from;
      InjectionSize(from - {x}, f, to - {f[x]});
      assert from == (from - {x}) + {x} && to == (to - {f[x]}) + {f[x]};
    }
  }

  /**
   In every state of every run: a chain of refreshes has at most one open session, its newest; and a user's
   open sessions never outnumber that user's successful logins.
   */
  lemma OneLiveSessionPerLogin(cfg: Settings, ws: seq<World>, rs: seq<Request>, i: nat, userId: UserId)
    requires Trace(cfg, ws, rs) && i < |ws|
    ensures var roots := Roots(ws[i].audit);
            forall a: SessionId, kin: SessionId |
              Open(ws[i], a) && a in roots && kin in roots && roots[kin] == roots[a] ::
              kin <= a && (Open(ws[i], kin) ==> kin == a)
    ensures forall a: SessionId | Open(ws[i], a) :: a in Roots(ws[i].audit)
    ensures |OpenSessions(ws[i], userId)| <= |Logins(ws[i].audit, userId)|
  {
    TraceKeepsInv(cfg, ws, rs, i);
    var w := ws[i];
    var roots := Roots(w.audit);
    forall a: SessionId, kin: SessionId | Open(w, a) && a in roots && kin in roots && roots[kin] == roots[a]
      ensures kin <= a && (Open(w, kin) ==> kin == a)
    {
      assert NewestOfChain(roots, a);
      assert Open(w, kin) ==> NewestOfChain(roots, kin);
    }
    OpenAtMostLogins(w, roots, userId);
  }

  lemma OpenAtMostLogins(w: World, roots: map<SessionId, SessionId>, userId: UserId)
    requires LineageBy(w, roots)
    requires forall id | id in w.core.rows :: id in w.core.made && w.core.made[id].userId == w.core.rows[id].userId
    ensures |OpenSessions(w, userId)| <= |Logins(w.audit, userId)|
  {
    var from := OpenSessions(w, userId);
    forall id | id in from
      ensures LoggedIn(w.audit, userId, roots[id])
    {
      assert Rooted(w, roots, id);
    }
    var f := map id | id in from :: LoginOf(w.audit, userId, roots[id]);
    forall x, y | x in from && y in from && f[x] == f[y]
      ensures x == y
    {
      assert roots[x] == roots[y];
      assert Open(w, x) && Open(w, y);
      assert NewestOfChain(roots, x) && NewestOfChain(roots, y);
    }
    InjectionSize(from, f, Logins(w.audit, userId));
  }

  ghost function LoginOf(audit: seq<AuditEntry>, userId: UserId, sid: SessionId): (i: nat)
    requires LoggedIn(audit, userId, sid)
    ensures i in Logins(audit, userId) && audit[i].action.sid == sid
  {
    var i: nat :| 0 <= i < |audit| && IsLogin(audit[i], userId) && audit[i].action.sid == sid;
    i
  }

  // ---- rotation and reuse detection ----

  /**
   Take any refresh recorded in the audit log of any run.  The consumed session keeps its row at least
   until `retention` after it was consumed; while the row exists, presenting its token again is answered
   with TokenReuse and leaves its user with no open session at all.
   */
  lemma ReuseIsDetected(cfg: Settings, ws: seq<World>, rs: seq<Request>, i: nat, n: nat, newToken: Hash, redis: bool)
    requires Trace(cfg, ws, rs) && i < |ws|
    requires n < |ws[i].audit| && ws[i].audit[n].action.SessionRefreshed?
    requires FreshHash(ws[i].core, newToken)
    ensures var w := ws[i];
            var id := w.audit[n].action.consumed;
            && id in w.core.made
            && (w.core.now <= w.audit[n].at + cfg.sessions.retention ==> id in w.core.rows)
            && (id in w.core.rows ==>
                  var (w', r) := Refresh(cfg, w, w.core.made[id].tokenHash, newToken, redis);
                  r == Err(TokenReuse) && OpenSessions(w', w.core.made[id].userId) == {})
  {
    TraceKeepsInv(cfg, ws, rs, i);
    var w := ws[i];
    assert Remembered(cfg, w, w.audit[n]);
    var id := w.audit[n].action.consumed;
    if id in w.core.rows {
      RevokedTokenIsCaught(cfg, w, id, newToken, redis);
    }
  }

  /**
   What a refresh is answered depends only on the row its token belongs to: active, it rotates; revoked for
   whatever reason or past its expiry, it is reuse and all of its owner's sessions are closed and nobody
   else's; at the very instant of expiry, or without a row, it is merely invalid and nothing happens.
   */
  lemma RefreshOutcome(cfg: Settings, w: World, token: Hash, newToken: Hash, redis: bool, id: SessionId,
                       other: UserId)
    requires SessionInv(cfg, w) && FreshHash(w.core, newToken)
    requires id in w.core.rows && w.core.rows[id].tokenHash == token
    ensures var (w', r), row := Refresh(cfg, w, token, newToken, redis), w.core.rows[id];
            && (r.Ok? <==> row.Active(w.core.now))
            && (r == Err(TokenReuse) <==> row.revoked || row.expiresAt < w.core.now)
            && (r == Err(InvalidSession) <==> !row.revoked && row.expiresAt == w.core.now)
            && (r == Err(InvalidSession) ==> w' == w)
            && (r == Err(TokenReuse) ==>
                  OpenSessions(w', other) == if other == row.userId then {} else OpenSessions(w, other))
            && (r.Ok? ==>
                  OpenSessions(w', other) ==
                  if other == row.userId then OpenSessions(w, other) - {id} + {r.value.sid} else OpenSessions(w, other))
  {
    TokensAreUnique(cfg, w, token, id);
    if w.core.rows[id].Active(w.core.now) {
      assert FindByHash(w.core.rows, token, Some(w.core.now), w.core.lastId) == Some(id);
      RotationSwapsOpen(cfg, w, id, newToken, redis, other);
    } else {
      assert FindByHash(w.core.rows, token, Some(w.core.now), w.core.lastId).None?;
      InactiveTokenOutcome(cfg, w, token, id, other);
    }
  }

  /** A known token without an active session is reuse, or merely invalid at the very instant of its expiry. */
  lemma InactiveTokenOutcome(cfg: Settings, w: World, token: Hash, id: SessionId, other: UserId)
    requires Inv(cfg.sessions, w.core) && id in w.core.rows && w.core.rows[id].tokenHash == token
    ensures var (w', r), row := RefreshMiss(cfg, w, token), w.core.rows[id];
            && (r == Err(TokenReuse) <==> row.revoked || row.expiresAt < w.core.now)
            && (r != Err(TokenReuse) ==> r == Err(InvalidSession) && w' == w)
            && (r == Err(TokenReuse) ==>
                  OpenSessions(w', other) == if other == row.userId then {} else OpenSessions(w, other))
  {
    TokensAreUnique(cfg, w, token, id);
    assert FindByHash(w.core.rows, token, None, w.core.lastId) == Some(id);
  }

  lemma TokensAreUnique(cfg: Settings, w: World, token: Hash, id: SessionId)
    requires Inv(cfg.sessions, w.core) && id in w.core.rows && w.core.rows[id].tokenHash == token
    ensures forall a | a in w.core.rows && w.core.rows[a].tokenHash == token :: a == id
  {
    forall a | a in w.core.rows && w.core.rows[a].tokenHash == token
      ensures a == id
    {
      assert w.core.made[a].tokenHash == token && w.core.made[id].tokenHash == token;
    }
  }

  lemma RotationSwapsOpen(cfg: Settings, w: World, id: SessionId, newToken: Hash, redis: bool, other: UserId)
    requires SessionInv(cfg, w) && FreshHash(w.core, newToken)
    requires id in w.core.rows && w.core.rows[id].Active(w.core.now)
    ensures w.core.rows[id].userId in w.core.users && w.core.users[w.core.rows[id].userId].active
    ensures var (w', pair) := Rotate(cfg, w, id, newToken, redis);
            OpenSessions(w', other) ==
            if other == w.core.rows[id].userId
            then OpenSessions(w, other) - {id} + {pair.sid}
            else OpenSessions(w, other)
  {
    assert Open(w, id);
    var revoked := Do(cfg, w, RevokeOne(id, w.core.now));
    StepKeepsInv(cfg.sessions, w.core, RevokeOne(id, w.core.now));
    assert OpenSessions(revoked, other) == OpenSessions(w, other) - {id};
    CreationOpensOne(cfg, revoked, w.core.rows[id].userId, newToken, other);
  }

  lemma CreationOpensOne(cfg: Settings, w: World, userId: UserId, newToken: Hash, other: UserId)
    requires Inv(cfg.sessions, w.core) && userId in w.core.users && FreshHash(w.core, newToken)
    ensures var (w', pair) := CreateSession(cfg, w, userId, newToken);
            OpenSessions(w', other) == OpenSessions(w, other) + if other == userId then {pair.sid} else {}
  {
    CreateSessionAdds(cfg, w, userId, newToken);
  }

  lemma RevokedTokenIsCaught(cfg: Settings, w: World, id: SessionId, newToken: Hash, redis: bool)
    requires Inv(cfg.sessions, w.core) && id in w.core.rows && w.core.rows[id].revoked
    requires FreshHash(w.core, newToken)
    ensures var (w', r) := Refresh(cfg, w, w.core.made[id].tokenHash, newToken, redis);
            r == Err(TokenReuse) && OpenSessions(w', w.core.made[id].userId) == {}
  {
    var token := w.core.made[id].tokenHash;
    TokensAreUnique(cfg, w, token, id);
    assert FindByHash(w.core.rows, token, None, w.core.lastId) == Some(id);
  }

  /**
   Refreshing consumes: the same token presented again is caught as reuse, while the token the refresh
   returned can itself be refreshed.
   */
  lemma RefreshRotates(cfg: Settings, w: World, token: Hash, newToken: Hash, later: Hash, redis: bool)
    requires SessionInv(cfg, w) && FreshHash(w.core, newToken) && cfg.sessions.refreshTTL > 0
    requires var (w', r) := Refresh(cfg, w, token, newToken, redis); r.Ok? && FreshHash(w'.core, later)
    ensures var (w', r) := Refresh(cfg, w, token, newToken, redis);
            && Refresh(cfg, w', token, later, redis).1 == Err(TokenReuse)
            && Refresh(cfg, w', r.value.refresh, later, redis).1.Ok?
  {
    var (w', r) := Refresh(cfg, w, token, newToken, redis);
    var sid := FindByHash(w.core.rows, token, Some(w.core.now), w.core.lastId).value;
    var userId := w.core.rows[sid].userId;
    var revoked := Do(cfg, w, RevokeOne(sid, w.core.now));
    RefreshKeepsInv(cfg, w, token, newToken, redis);
    StepKeepsInv(cfg.sessions, w.core, RevokeOne(sid, w.core.now));
    CreateSessionAdds(cfg, revoked, userId, newToken);
    assert w'.core.made[sid] == w.core.made[sid];
    RevokedTokenIsCaught(cfg, w', sid, later, redis);
    FreshTokenIsFound(cfg, w', r.value.sid);
  }

  lemma FreshTokenIsFound(cfg: Settings, w: World, sid: SessionId)
    requires Inv(cfg.sessions, w.core) && sid in w.core.rows && w.core.rows[sid].Active(w.core.now)
    ensures FindByHash(w.core.rows, w.core.made[sid].tokenHash, Some(w.core.now), w.core.lastId) == Some(sid)
  {
    var found := FindByHash(w.core.rows, w.core.made[sid].tokenHash, Some(w.core.now), w.core.lastId);
    assert found.Some?;
    assert w.core.made[found.value].tokenHash == w.core.made[sid].tokenHash;
  }

  // ---- acceptance, one request at a time ----

  /**
   The middleware accepts exactly the signed, unexpired tokens of active users whose session is open; and
   then, in every state of every run, that session is active at this instant and belongs to the subject,
   though neither is looked at.
   */
  lemma AuthenticateIsSound(cfg: Settings, ws: seq<World>, rs: seq<Request>, i: nat, t: AccessToken)
    requires cfg.sessions.accessTTL + cfg.sessions.lag <= cfg.sessions.refreshTTL
    requires Trace(cfg, ws, rs) && i < |ws|
    ensures var (w, (_, r)) := (ws[i], Authenticate(cfg, ws[i], t));
            && (r.Ok? <==> t in w.core.issued && t.Unexpired(w.core.now)
                           && t.sub in w.core.users && w.core.users[t.sub].active && Open(w, t.sid))
            && (r.Ok? ==> w.core.rows[t.sid].userId == t.sub && w.core.rows[t.sid].Active(w.core.now))
  {
    TraceKeepsInv(cfg, ws, rs, i);
    assert t in ws[i].core.issued ==> TokenFits(cfg.sessions, t, ws[i].core);
  }

  /** What a successful login leaves behind. */
  lemma AdmitOpens(cfg: Settings, w: World, input: LoginInput)
    requires SessionInv(cfg, w) && FreshHash(w.core, input.newToken)
    requires Admit(cfg, w, input).1.Ok?
    ensures var (w', r) := Admit(cfg, w, input);
            var pair, sub := r.value, r.value.access.sub;
            && w'.core.now == w.core.now
            && sub in w'.core.users && w'.core.users[sub].active && w'.core.users[sub].email == input.email
            && pair.access in w'.core.issued && pair.access.sid == pair.sid
            && pair.access.exp == (w.core.now + cfg.sessions.accessTTL) / SECOND
            && pair.sid in w'.core.rows && pair.sid in w'.core.made && w'.core.made[pair.sid].tokenHash == pair.refresh
            && w'.core.rows[pair.sid].userId == sub
            && !w'.core.rows[pair.sid].revoked
                 && w'.core.rows[pair.sid].expiresAt == w.core.now + cfg.sessions.refreshTTL
  {
    var (id, needsRehash) := CheckCredentials(cfg, w, input).value;
    RehashKeepsInv(cfg, w, id, needsRehash, input.newHash);
    WelcomeOpens(cfg, Rehash(cfg, w, id, needsRehash, input.newHash), id, input);
  }

  lemma WelcomeOpens(cfg: Settings, w: World, id: UserId, input: LoginInput)
    requires Inv(cfg.sessions, w.core) && id in w.core.users && FreshHash(w.core, input.newToken)
    ensures var (w', pair) := Welcome(cfg, w, id, input);
            && w'.core.now == w.core.now && w'.core.users == w.core.users
            && pair.access == AccessToken(id, pair.sid, (w.core.now + cfg.sessions.accessTTL) / SECOND)
            && pair.refresh == input.newToken
            && pair.access in w'.core.issued
            && pair.sid in w'.core.made && w'.core.made[pair.sid].tokenHash == input.newToken
            && pair.sid in w'.core.rows
            && w'.core.rows[pair.sid] == NewRow(cfg.sessions, w.core, Made(id, input.newToken, w.core.now))
  {
    CreateSessionAdds(cfg, w, id, input.newToken);
  }

  /** A successful login's access token is accepted at once, for that user and session; its refresh token too. */
  lemma LoginIsUsable(cfg: Settings, w: World, input: LoginInput, later: Hash)
    requires SessionInv(cfg, w) && FreshHash(w.core, input.newToken)
    requires cfg.sessions.accessTTL >= SECOND && cfg.sessions.refreshTTL > 0
    requires var (w', r) := Admit(cfg, w, input); r.Ok? && FreshHash(w'.core, later)
    ensures var (w', r) := Admit(cfg, w, input);
            var pair := r.value;
            && Authenticate(cfg, w', pair.access).1 == Ok((pair.access.sub, pair.sid))
            && w'.core.users[pair.access.sub].email == input.email
            && Refresh(cfg, w', pair.refresh, later, true).1.Ok?
  {
    var (w', r) := Admit(cfg, w, input);
    AdmitOpens(cfg, w, input);
    AdmitKeepsInv(cfg, w, input);
    NewTokensWork(cfg, w', r.value.access, r.value.sid, r.value.refresh, later);
  }

  lemma NewTokensWork(cfg: Settings, w: World, access: AccessToken, sid: SessionId, refresh: Hash, later: Hash)
    requires Inv(cfg.sessions, w.core) && FreshHash(w.core, later)
    requires cfg.sessions.accessTTL >= SECOND
    requires access in w.core.issued && access.sid == sid
               && access.exp == (w.core.now + cfg.sessions.accessTTL) / SECOND
    requires access.sub in w.core.users && w.core.users[access.sub].active
    requires sid in w.core.rows && w.core.rows[sid].Active(w.core.now) && w.core.rows[sid].userId == access.sub
    requires w.core.made[sid].tokenHash == refresh
    ensures Authenticate(cfg, w, access).1 == Ok((access.sub, sid))
    ensures Refresh(cfg, w, refresh, later, true).1.Ok?
  {
    FreshTokenIsFound(cfg, w, sid);
    assert access.exp * SECOND > w.core.now;
  }

  // ---- deactivation ----

  /**
   In every state of every run an inactive user has no open session, so no token of theirs can be used or
   refreshed.
   */
  lemma InactiveUsersAreOut(cfg: Settings, ws: seq<World>, rs: seq<Request>, i: nat, userId: UserId)
    requires Trace(cfg, ws, rs) && i < |ws|
    requires userId in ws[i].core.users && !ws[i].core.users[userId].active
    ensures OpenSessions(ws[i], userId) == {}
  {
    TraceKeepsInv(cfg, ws, rs, i);
    forall id | id in OpenSessions(ws[i], userId)
      ensures false
    {
      assert Open(ws[i], id);
    }
  }

  // ---- cleanup ----

  /** Every entry names a doomed row and its owner. */
  lemma {:induction false} EntriesNameDoomedRows(rows: Table, cutoff: int, now: Time, upTo: nat, k: nat)
    requires k < |ExpiryEntries(rows, cutoff, now, upTo)|
    ensures var entry := ExpiryEntries(rows, cutoff, now, upTo)[k];
            entry.action.SessionExpired? && entry.action.sid in rows && rows[entry.action.sid].Doomed(cutoff)
            && entry.userId == Some(rows[entry.action.sid].userId) && entry.at == now
  {
    if upTo > 0 && k < |ExpiryEntries(rows, cutoff, now, upTo - 1)| {
      EntriesNameDoomedRows(rows, cutoff, now, upTo - 1, k);
    }
  }

  /** There are as many entries as doomed rows. */
  lemma {:induction false} EntriesCountDoomedRows(rows: Table, cutoff: int, now: Time, upTo: nat)
    ensures |ExpiryEntries(rows, cutoff, now, upTo)| == |set id | id in DoomedIds(rows, cutoff) && id <= upTo|
  {
    var ids := set id | id in DoomedIds(rows, cutoff) && id <= upTo;
    var last := if upTo in rows && rows[upTo].Doomed(cutoff) then {upTo} else {};
    if upTo == 0 {
      assert ids == last;
    } else {
      EntriesCountDoomedRows(rows, cutoff, now, upTo - 1);
      assert ids == (set id | id in DoomedIds(rows, cutoff) && id <= upTo - 1) + last;
    }
  }

  /** Every doomed row has its entry. */
  lemma {:induction false} DoomedRowsHaveEntries(rows: Table, cutoff: int, now: Time, upTo: nat, id: SessionId)
    returns (k: nat)
    requires id in rows && rows[id].Doomed(cutoff) && id <= upTo
    ensures k < |ExpiryEntries(rows, cutoff, now, upTo)|
              && ExpiryEntries(rows, cutoff, now, upTo)[k].action == SessionExpired(id)
  {
    if id == upTo {
      k := |ExpiryEntries(rows, cutoff, now, upTo)| - 1;
    } else {
      k := DoomedRowsHaveEntries(rows, cutoff, now, upTo - 1, id);
      assert ExpiryEntries(rows, cutoff, now, upTo)[k] == ExpiryEntries(rows, cutoff, now, upTo - 1)[k];
    }
  }

  lemma DeletedRowsAreDoomed(cfg: Settings, w: World)
    ensures var w' := CleanupSessions(cfg, w);
            var cutoff := w.core.now - cfg.sessions.retention;
            && w.core.rows.Keys - w'.core.rows.Keys == DoomedIds(w.core.rows, cutoff)
            && w'.audit == w.audit + ExpiryEntries(w.core.rows, cutoff, w.core.now, w.core.lastId)
            && forall id | id in DoomedIds(w.core.rows, cutoff) :: !w.core.rows[id].Active(w.core.now)
  {
  }

  /** The log has grown by as many entries as there are ids, and one of them names each. */
  ghost predicate OneEntryEach(before: seq<AuditEntry>, audit: seq<AuditEntry>, ids: set<SessionId>) {
    && |audit| == |before| + |ids|
    && forall id | id in ids :: exists k :: |before| <= k < |audit| && audit[k].action == SessionExpired(id)
  }

  /**
   In every state of every run, a cleanup writes as many audit entries as it deletes rows, one naming each
   deleted row; and it deletes no active session.
   */
  lemma CleanupAuditsWhatItDeletes(cfg: Settings, ws: seq<World>, rs: seq<Request>, i: nat)
    requires Trace(cfg, ws, rs) && i < |ws|
    ensures var w, w' := ws[i], CleanupSessions(cfg, ws[i]);
            var deleted := w.core.rows.Keys - w'.core.rows.Keys;
            && OneEntryEach(w.audit, w'.audit, deleted)
            && forall id | id in deleted :: !w.core.rows[id].Active(w.core.now)
  {
    RowsAreNumbered(cfg, ws, rs, i);
    CleanupAudits(cfg, ws[i]);
  }

  lemma RowsAreNumbered(cfg: Settings, ws: seq<World>, rs: seq<Request>, i: nat)
    requires Trace(cfg, ws, rs) && i < |ws|
    ensures forall id | id in ws[i].core.rows :: id <= ws[i].core.lastId
  {
    TraceKeepsInv(cfg, ws, rs, i);
  }

  lemma CleanupAudits(cfg: Settings, w: World)
    requires forall id | id in w.core.rows :: id <= w.core.lastId
    ensures var w' := CleanupSessions(cfg, w);
            var deleted := w.core.rows.Keys - w'.core.rows.Keys;
            && OneEntryEach(w.audit, w'.audit, deleted)
            && forall id | id in deleted :: !w.core.rows[id].Active(w.core.now)
  {
    DeletedRowsAreDoomed(cfg, w);
    var w' := CleanupSessions(cfg, w);
    EntriesFitDoomed(w.audit, w'.audit, w.core.rows, w.core.rows.Keys - w'.core.rows.Keys,
                     w.core.now - cfg.sessions.retention, w.core.now, w.core.lastId);
  }

  lemma EntriesFitDoomed(before: seq<AuditEntry>, audit: seq<AuditEntry>, rows: Table, deleted: set<SessionId>,
                         cutoff: int, now: Time, upTo: nat)
    requires forall id | id in rows :: id <= upTo
    requires audit == before + ExpiryEntries(rows, cutoff, now, upTo) && deleted == DoomedIds(rows, cutoff)
    ensures OneEntryEach(before, audit, deleted)
  {
    AllDoomedAreCounted(rows, cutoff, now, upTo);
    AllDoomedAreNamed(before, rows, cutoff, now, upTo);
  }

  lemma AllDoomedAreCounted(rows: Table, cutoff: int, now: Time, upTo: nat)
    requires forall id | id in rows :: id <= upTo
    ensures |ExpiryEntries(rows, cutoff, now, upTo)| == |DoomedIds(rows, cutoff)|
  {
    EntriesCountDoomedRows(rows, cutoff, now, upTo);
    assert DoomedIds(rows, cutoff) == set id | id in DoomedIds(rows, cutoff) && id <= upTo;
  }

  lemma AllDoomedAreNamed(before: seq<AuditEntry>, rows: Table, cutoff: int, now: Time, upTo: nat)
    requires forall id | id in rows :: id <= upTo
    ensures var audit := before + ExpiryEntries(rows, cutoff, now, upTo);
            forall id | id in DoomedIds(rows, cutoff) ::
              exists k :: |before| <= k < |audit| && audit[k].action == SessionExpired(id)
  {
    var entries := ExpiryEntries(rows, cutoff, now, upTo);
    var audit := before + entries;
    forall id | id in DoomedIds(rows, cutoff)
      ensures exists k :: |before| <= k < |audit| && audit[k].action == SessionExpired(id)
    {
      var k := DoomedRowsHaveEntries(rows, cutoff, now, upTo, id);
      assert audit[|before| + k] == entries[k];
    }
  }

  // ---- what the explicit revocations reach ----

  /**
   Revoking one session, all others, or by logging out closes exactly the sessions meant: the named one if
   it is the user's own, all of the user's but the current one, the one the token belongs to.
   */
  lemma RevocationsAreTargeted(cfg: Settings, w: World, sid: SessionId, userId: UserId, token: Hash, other: UserId)
    requires Inv(cfg.sessions, w.core)
    ensures var (w', r) := RevokeSession(cfg, w, sid, userId);
            && (r.Ok? <==> sid in w.core.rows && w.core.rows[sid].userId == userId)
            && OpenSessions(w', other) == if r.Ok? then OpenSessions(w, other) - {sid} else OpenSessions(w, other)
    ensures OpenSessions(RevokeOtherSessions(cfg, w, userId, sid), other) ==
            if other == userId then OpenSessions(w, other) * {sid} else OpenSessions(w, other)
    ensures OpenSessions(Logout(cfg, w, token), other) ==
            OpenSessions(w, other) - (set id | id in w.core.rows && w.core.rows[id].tokenHash == token
                && w.core.rows[id].Active(w.core.now))
  {
    ManualRevocation(cfg, w, sid, userId, other);
    LogoutCloses(cfg, w, token, other);
  }

  lemma ManualRevocation(cfg: Settings, w: World, sid: SessionId, userId: UserId, other: UserId)
    ensures var (w', r) := RevokeSession(cfg, w, sid, userId);
            OpenSessions(w', other) == if r.Ok? then OpenSessions(w, other) - {sid} else OpenSessions(w, other)
    ensures OpenSessions(RevokeOtherSessions(cfg, w, userId, sid), other) ==
            if other == userId then OpenSessions(w, other) * {sid} else OpenSessions(w, other)
  {
  }

  lemma LogoutCloses(cfg: Settings, w: World, token: Hash, other: UserId)
    requires Inv(cfg.sessions, w.core)
    ensures OpenSessions(Logout(cfg, w, token), other) ==
            OpenSessions(w, other) - (set id | id in w.core.rows && w.core.rows[id].tokenHash == token
                && w.core.rows[id].Active(w.core.now))
  {
    var found := FindByHash(w.core.rows, token, Some(w.core.now), w.core.lastId);
    forall id | id in w.core.rows && w.core.rows[id].tokenHash == token
      ensures found.Some? ==> id == found.value
    {
      assert w.core.made[id].tokenHash == token;
      assert found.Some? ==> w.core.made[found.value].tokenHash == token;
    }
  }
}
