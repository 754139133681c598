/**
 The session protocol with every request split into its database queries, interleaved at will.

 An event is one query of one request.  Requests read the clock themselves, so a query that
 stores a time stores a reading that may be up to `lag` ticks old when the query executes.
 `made` and `issued` are history: every row ever inserted and every access token ever signed.
 */
module SessionProtocol {
  import opened Types
  import opened SessionTable

  datatype Config = Config(accessTTL: nat, refreshTTL: nat, retention: nat, lag: nat)

  datatype AccessToken = AccessToken(sub: UserId, sid: SessionId, exp: nat)
  {
    /** `exp` is in whole seconds; the token is good strictly before it. */
    predicate Unexpired(now: Time) {
      now < exp * SECOND
    }
  }

  datatype Made = Made(userId: UserId, tokenHash: Hash, readAt: Time)

  datatype Core = Core(
    now: Time,
    users: map<UserId, User>,
    rows: Table,
    lastId: nat,
    made: map<SessionId, Made>,
    issued: set<AccessToken>)

  datatype Event =
    | Tick(to: Time)
    | PutUser(userId: UserId, user: User)
    | Insert(userId: UserId, tokenHash: Hash, readAt: Time)
    | Issue(sid: SessionId)
    | RevokeOne(sid: SessionId, readAt: Time)
    | RevokeUser(userId: UserId, readAt: Time)
    | RevokeOthers(userId: UserId, current: SessionId, readAt: Time)
    | Touch(sid: SessionId, readAt: Time)
    | Delete(cutoff: int)

  /** A clock reading a request may still be carrying when its query executes. */
  predicate Recent(cfg: Config, c: Core, readAt: Time) {
    readAt <= c.now <= readAt + cfg.lag
  }

  predicate FreshHash(c: Core, tokenHash: Hash) {
    forall id | id in c.made :: c.made[id].tokenHash != tokenHash
  }

  /** When an event can happen: foreign keys hold, tokens are fresh, clocks do not go back. */
  predicate Enabled(cfg: Config, c: Core, e: Event) {
    match e
    case Tick(to) => c.now <= to
    case PutUser(_, _) => true
    case Insert(u, h, readAt) => u in c.users && FreshHash(c, h) && Recent(cfg, c, readAt)
    case Issue(sid) => sid in c.made && Recent(cfg, c, c.made[sid].readAt)
    case RevokeOne(_, readAt) => Recent(cfg, c, readAt)
    case RevokeUser(_, readAt) => Recent(cfg, c, readAt)
    case RevokeOthers(_, _, readAt) => Recent(cfg, c, readAt)
    case Touch(_, readAt) => Recent(cfg, c, readAt)
    case Delete(cutoff) => cutoff <= c.now - cfg.retention
  }

  function NewRow(cfg: Config, c: Core, m: Made): Session {
    Session(m.userId, m.tokenHash, m.readAt + cfg.refreshTTL, false, None, m.readAt, c.now)
  }

  function TokenFor(cfg: Config, c: Core, sid: SessionId): AccessToken
    requires sid in c.made
  {
    AccessToken(c.made[sid].userId, sid, (c.now + cfg.accessTTL) / SECOND)
  }

  function Apply(cfg: Config, c: Core, e: Event): Core
    requires Enabled(cfg, c, e)
  {
    match e
    case Tick(to) => c.(now := to)
    case PutUser(u, user) => c.(users := c.users[u := user])
    case Insert(u, h, readAt) =>
      var id := c.lastId + 1;
      var m := Made(u, h, readAt);
      c.(rows := c.rows[id := NewRow(cfg, c, m)], lastId := id, made := c.made[id := m])
    case Issue(sid) => c.(issued := c.issued + {TokenFor(cfg, c, sid)})
    case RevokeOne(sid, readAt) => c.(rows := RevokeWithTimestamp(c.rows, sid, readAt))
    case RevokeUser(u, readAt) => c.(rows := RevokeAllByUser(c.rows, u, readAt))
    case RevokeOthers(u, current, readAt) => c.(rows := RevokeAllByUserExceptCurrent(c.rows, u, current, readAt))
    case Touch(sid, readAt) => c.(rows := TouchActivity(c.rows, sid, readAt))
    case Delete(cutoff) => c.(rows := Purge(c.rows, cutoff))
  }

  predicate Initial(c: Core) {
    c.rows == map[] && c.made == map[] && c.issued == {}
  }

  /** The states `cs` of a run and the events `es` between them. */
  ghost predicate Run(cfg: Config, cs: seq<Core>, es: seq<Event>) {
    && |cs| == |es| + 1
    && Initial(cs[0])
    && forall i | 0 <= i < |es| :: Enabled(cfg, cs[i], es[i]) && cs[i + 1] == Apply(cfg, cs[i], es[i])
  }

  // ---- the invariant ----

  /** A stored row still says what was inserted. */
  predicate RowFits(cfg: Config, row: Session, m: Made) {
    && row.userId == m.userId
    && row.tokenHash == m.tokenHash
    && row.expiresAt == m.readAt + cfg.refreshTTL
    && (row.revoked <==> row.revokedAt.Some?)
  }

  predicate TokenFits(cfg: Config, t: AccessToken, c: Core) {
    && t.sid in c.made
    && t.sub == c.made[t.sid].userId
    && t.exp * SECOND <= c.made[t.sid].readAt + cfg.lag + cfg.accessTTL
  }

  predicate Inv(cfg: Config, c: Core) {
    && (forall id | id in c.made :: 1 <= id <= c.lastId)
    && (forall id | id in c.rows :: id in c.made && RowFits(cfg, c.rows[id], c.made[id]))
    && (forall a, b | a in c.made && b in c.made :: c.made[a].tokenHash == c.made[b].tokenHash ==> a == b)
    && (forall t | t in c.issued :: TokenFits(cfg, t, c))
  }

  /** What no single query ever undoes, seen from one session. */
  ghost predicate Keeps(before: Core, after: Core, id: SessionId)
    requires id in before.made
  {
    && id in after.made
    && after.made[id] == before.made[id]
    && (id !in before.rows ==> id !in after.rows)
    && (id in before.rows && before.rows[id].revoked && id in after.rows ==>
          after.rows[id].revoked && after.rows[id].revokedAt == before.rows[id].revokedAt)
  }

  lemma StepKeepsInv(cfg: Config, c: Core, e: Event)
    requires Inv(cfg, c) && Enabled(cfg, c, e)
    ensures Inv(cfg, Apply(cfg, c, e))
  {
    var c' := Apply(cfg, c, e);
    if e.Issue? {
      var t := TokenFor(cfg, c, e.sid);
      assert t.exp * SECOND <= c.now + cfg.accessTTL;
      assert TokenFits(cfg, t, c');
    }
    forall t | t in c'.issued
      ensures TokenFits(cfg, t, c')
    {
      assert t in c.issued ==> TokenFits(cfg, t, c);
    }
  }

  lemma StepKeepsSession(cfg: Config, c: Core, e: Event, id: SessionId)
    requires Inv(cfg, c) && Enabled(cfg, c, e) && id in c.made
    ensures Keeps(c, Apply(cfg, c, e), id)
  {
  }

  lemma {:induction false} RunKeepsInv(cfg: Config, cs: seq<Core>, es: seq<Event>, i: nat)
    requires Run(cfg, cs, es) && i < |cs|
    ensures Inv(cfg, cs[i])
  {
    if i > 0 {
      RunKeepsInv(cfg, cs, es, i - 1);
      StepKeepsInv(cfg, cs[i - 1], es[i - 1]);
    }
  }

  lemma {:induction false} ClockIsMonotone(cfg: Config, cs: seq<Core>, es: seq<Event>, i: nat, j: nat)
    requires Run(cfg, cs, es) && i <= j < |cs|
    ensures cs[i].now <= cs[j].now
  {
    if i < j {
      ClockIsMonotone(cfg, cs, es, i, j - 1);
      assert Enabled(cfg, cs[j - 1], es[j - 1]) && cs[j] == Apply(cfg, cs[j - 1], es[j - 1]);
    }
  }

  lemma {:induction false} RunKeepsSession(cfg: Config, cs: seq<Core>, es: seq<Event>, i: nat, j: nat, id: SessionId)
    requires Run(cfg, cs, es) && i <= j < |cs| && id in cs[i].made
    ensures Keeps(cs[i], cs[j], id)
  {
    if i < j {
      RunKeepsSession(cfg, cs, es, i, j - 1, id);
      RunKeepsInv(cfg, cs, es, j - 1);
      StepKeepsSession(cfg, cs[j - 1], es[j - 1], id);
    }
  }

  // ---- revocation is final ----

  /** The session was created and is now revoked or gone. */
  predicate Ended(c: Core, id: SessionId) {
    id in c.made && (id in c.rows ==> c.rows[id].revoked)
  }

  /** No check made in this state accepts the session's access tokens or its refresh token, at any clock reading. */
  ghost predicate Rejected(c: Core, id: SessionId)
    requires id in c.made
  {
    && !Touchable(c.rows, id)
    && forall at: Time, upTo: nat :: FindByHash(c.rows, c.made[id].tokenHash, Some(at), upTo).None?
  }

  /**
   Whatever requests are in flight, a session that is revoked (or whose row is deleted) in state i is
   revoked or deleted in every later state j; its revocation time is never rewritten; and no check in
   state j accepts any token bound to it.
   */
  lemma RevocationIsFinal(cfg: Config, cs: seq<Core>, es: seq<Event>, i: nat, j: nat, id: SessionId)
    requires Run(cfg, cs, es) && i <= j < |cs|
    requires Ended(cs[i], id)
    ensures Ended(cs[j], id) && Rejected(cs[j], id)
    ensures id in cs[i].rows && id in cs[j].rows ==> cs[j].rows[id].revokedAt == cs[i].rows[id].revokedAt
    ensures forall t | t in cs[j].issued && t.sid == id :: !Touchable(cs[j].rows, t.sid)
  {
    RunKeepsSession(cfg, cs, es, i, j, id);
    RunKeepsInv(cfg, cs, es, j);
  }

  // ---- acceptance is sound ----

  /**
   A request whose access token is checked in state i, whose user is looked up in state j and whose
   session is touched in state k passes the middleware only if the user was active at the lookup and
   the touched row exists, is unrevoked, belongs to that user, and had not expired when the token was
   checked.  With i == j == k all of it holds at one instant.
   */
  lemma AcceptanceIsSound(cfg: Config, cs: seq<Core>, es: seq<Event>, i: nat, j: nat, k: nat, t: AccessToken)
    requires cfg.accessTTL + cfg.lag <= cfg.refreshTTL
    requires Run(cfg, cs, es) && i <= j <= k < |cs|
    requires t in cs[i].issued && t.Unexpired(cs[i].now)
    requires t.sub in cs[j].users && cs[j].users[t.sub].active
    requires Touchable(cs[k].rows, t.sid)
    ensures t.sid in cs[i].rows
    ensures var row := cs[k].rows[t.sid]; row.userId == t.sub && !row.revoked && row.expiresAt > cs[i].now
    ensures i == k ==> cs[k].rows[t.sid].Active(cs[k].now)
  {
    RunKeepsInv(cfg, cs, es, i);
    RunKeepsInv(cfg, cs, es, k);
    assert TokenFits(cfg, t, cs[i]);
    RunKeepsSession(cfg, cs, es, i, k, t.sid);
  }

  /**
   The bound on the lifetimes is exact.  If access tokens live at all, and the access lifetime together with
   the delay between the two clock readings of a login exceeds the refresh lifetime, some run accepts a
   token whose session has expired.
   */
  lemma LifetimesMustNest(cfg: Config) returns (cs: seq<Core>, es: seq<Event>, t: AccessToken)
    requires cfg.accessTTL > 0 && cfg.accessTTL + cfg.lag > cfg.refreshTTL
    ensures Run(cfg, cs, es)
    ensures var c := cs[|es|];
            && t in c.issued && t.Unexpired(c.now)
            && t.sub in c.users && c.users[t.sub].active
            && Touchable(c.rows, t.sid) && !c.rows[t.sid].Active(c.now)
  {
    var lifetime := cfg.lag + cfg.accessTTL;
    var start := lifetime * (SECOND - 1);
    var issue := start + cfg.lag;
    var use := if cfg.refreshTTL > cfg.lag then start + cfg.refreshTTL else issue;
    es := [Insert(1, 0, start), Tick(issue), Issue(1), Tick(use)];
    var c0 := Core(start, map[1 := User("", "", "", None, true)], map[], 0, map[], {});
    var c1 := Apply(cfg, c0, es[0]);
    var c2 := Apply(cfg, c1, es[1]);
    var c3 := Apply(cfg, c2, es[2]);
    cs := [c0, c1, c2, c3, Apply(cfg, c3, es[3])];
    t := TokenFor(cfg, c2, 1);
    assert issue + cfg.accessTTL == lifetime * SECOND;
    assert t.exp == lifetime;
  }

  // ---- deactivation ----

  /** The user's sessions that are neither revoked nor deleted. */
  function OpenOf(c: Core, userId: UserId): set<SessionId> {
    set id | id in c.rows && !c.rows[id].revoked && c.rows[id].userId == userId
  }

  predicate Opens(e: Event, userId: UserId) {
    e.Insert? && e.userId == userId
  }

  /** A session created between two states was inserted in between. */
  lemma {:induction false} InsertedSince(cfg: Config, cs: seq<Core>, es: seq<Event>, j: nat, k: nat, id: SessionId)
    returns (n: nat)
    requires Run(cfg, cs, es) && j <= k < |cs|
    requires id !in cs[j].made && id in cs[k].made
    ensures j <= n < k && Opens(es[n], cs[k].made[id].userId) && id == cs[n].lastId + 1
  {
    assert Enabled(cfg, cs[k - 1], es[k - 1]) && cs[k] == Apply(cfg, cs[k - 1], es[k - 1]);
    if id in cs[k - 1].made {
      RunKeepsSession(cfg, cs, es, k - 1, k, id);
      n := InsertedSince(cfg, cs, es, j, k - 1, id);
    } else {
      n := k - 1;
    }
  }

  /**
   A sweep of a user's sessions, as in a deactivation, closes all that were inserted before it: the user has
   an open session later only if a request that found the user active inserted one after the sweep.
   */
  lemma SweepLeavesOnlyLateInserts(cfg: Config, cs: seq<Core>, es: seq<Event>, j: nat, k: nat, userId: UserId)
    requires Run(cfg, cs, es) && j < k < |cs|
    requires es[j].RevokeUser? && es[j].userId == userId
    ensures forall id | id in OpenOf(cs[k], userId) ::
              exists n :: j < n < k && Opens(es[n], userId) && id == cs[n].lastId + 1
    ensures (forall n | j < n < k :: !Opens(es[n], userId)) ==> OpenOf(cs[k], userId) == {}
  {
    RunKeepsInv(cfg, cs, es, j);
    RunKeepsInv(cfg, cs, es, k);
    assert cs[j + 1] == Apply(cfg, cs[j], es[j]);
    forall id | id in OpenOf(cs[k], userId)
      ensures exists n :: j < n < k && Opens(es[n], userId) && id == cs[n].lastId + 1
    {
      assert id in cs[k].made && cs[k].made[id].userId == userId;
      if id in cs[j + 1].made {
        RunKeepsSession(cfg, cs, es, j + 1, k, id);
      } else {
        var n := InsertedSince(cfg, cs, es, j + 1, k, id);
      }
    }
  }

  /**
   And such a request exists: a login finds its user active in the first state, the user is deactivated and
   swept, and only then the login inserts its session.  The inactive user owns an open session, and once the
   user is active again its access token is accepted.
   */
  lemma LateInsertSurvives(cfg: Config) returns (cs: seq<Core>, es: seq<Event>, t: AccessToken)
    requires cfg.accessTTL >= SECOND
    ensures Run(cfg, cs, es) && |es| == 5
    ensures 1 in cs[0].users && cs[0].users[1].active
    ensures es[0].PutUser? && es[0].userId == 1 && !es[0].user.active && es[1] == RevokeUser(1, 0)
    ensures 1 in cs[4].users && !cs[4].users[1].active && t.sid in OpenOf(cs[4], 1)
    ensures t.sub == 1 && t in cs[5].issued && t.Unexpired(cs[5].now) && cs[5].users[1].active
              && Touchable(cs[5].rows, t.sid)
  {
    var active := User("", "", "", None, true);
    es := [PutUser(1, active.(active := false)), RevokeUser(1, 0), Insert(1, 0, 0), Issue(1), PutUser(1, active)];
    var c0 := Core(0, map[1 := active], map[], 0, map[], {});
    var c1 := Apply(cfg, c0, es[0]);
    var c2 := Apply(cfg, c1, es[1]);
    var c3 := Apply(cfg, c2, es[2]);
    var c4 := Apply(cfg, c3, es[3]);
    cs := [c0, c1, c2, c3, c4, Apply(cfg, c4, es[4])];
    t := TokenFor(cfg, c3, 1);
  }

  // ---- cleanup is exact without a transaction ----

  lemma {:induction false} DoomIsStable(cfg: Config, cs: seq<Core>, es: seq<Event>, i: nat, j: nat, cutoff: int)
    requires cfg.lag <= cfg.retention
    requires Run(cfg, cs, es) && i <= j < |cs|
    requires cutoff <= cs[i].now - cfg.retention
    requires forall n | i <= n < j :: !es[n].Delete?
    ensures DoomedIds(cs[j].rows, cutoff) == DoomedIds(cs[i].rows, cutoff)
    ensures forall id | id in DoomedIds(cs[i].rows, cutoff) :: cs[j].rows[id].userId == cs[i].rows[id].userId
  {
    if i < j {
      DoomIsStable(cfg, cs, es, i, j - 1, cutoff);
      ClockIsMonotone(cfg, cs, es, i, j - 1);
      RunKeepsInv(cfg, cs, es, j - 1);
      DoomSurvivesStep(cfg, cs[j - 1], es[j - 1], cutoff);
    }
  }

  lemma DoomSurvivesStep(cfg: Config, c: Core, e: Event, cutoff: int)
    requires cfg.lag <= cfg.retention
    requires Inv(cfg, c) && Enabled(cfg, c, e) && !e.Delete?
    requires cutoff <= c.now - cfg.retention
    ensures DoomedIds(Apply(cfg, c, e).rows, cutoff) == DoomedIds(c.rows, cutoff)
    ensures forall id | id in DoomedIds(c.rows, cutoff) :: Apply(cfg, c, e).rows[id].userId == c.rows[id].userId
  {
    var rows' := Apply(cfg, c, e).rows;
    forall id | id in rows'
      ensures id in c.rows ==>
                && rows'[id].userId == c.rows[id].userId
                && rows'[id].Doomed(cutoff) == c.rows[id].Doomed(cutoff)
      ensures id !in c.rows ==> !rows'[id].Doomed(cutoff)
    {
    }
    assert c.rows.Keys <= rows'.Keys;
  }

  /**
   The cleaner SELECTs in state i and DELETEs in state j with the same cutoff and no transaction.
   If no other cleaner deletes in between, the rows removed are exactly the rows listed, they belong to
   the users the listing (and so the audit trail) names, and none of them is an active session.
   */
  lemma CleanupIsExact(cfg: Config, cs: seq<Core>, es: seq<Event>, i: nat, j: nat, cutoff: int)
    requires cfg.lag <= cfg.retention
    requires Run(cfg, cs, es) && i <= j < |es|
    requires cutoff <= cs[i].now - cfg.retention
    requires es[j] == Delete(cutoff) && forall n | i <= n < j :: !es[n].Delete?
    ensures cs[j].rows.Keys - cs[j + 1].rows.Keys == DoomedIds(cs[i].rows, cutoff)
    ensures forall id | id in cs[j + 1].rows :: id in cs[j].rows && cs[j + 1].rows[id] == cs[j].rows[id]
    ensures forall id | id in DoomedIds(cs[i].rows, cutoff) ::
              && id in cs[j].rows && cs[j].rows[id].userId == cs[i].rows[id].userId
              && !cs[i].rows[id].Active(cs[i].now) && !cs[j].rows[id].Active(cs[j].now)
  {
    DoomIsStable(cfg, cs, es, i, j, cutoff);
    ClockIsMonotone(cfg, cs, es, i, j);
    assert cs[j + 1] == Apply(cfg, cs[j], es[j]);
    assert cs[j].rows.Keys - cs[j + 1].rows.Keys == DoomedIds(cs[j].rows, cutoff);
  }
}
