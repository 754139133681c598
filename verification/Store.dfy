/**
 The mutable state behind the services: the Postgres tables, the Redis keys and the audit log, with the
 queries and commands that change them in place.  `made` and `issued` are history kept for proofs.
 */
module Store {
  import opened Types
  import opened SessionTable
  import opened SessionProtocol
  import opened RateLimiter
  import opened Matching
  import opened PermissionTable
  import opened PermissionCache
  import opened Requests

  class Store {
    const cfg: Settings
    const limiter: TieredRateLimiter
    var now: Time
    var users: map<UserId, User>
    var lastUser: nat
    var sessions: Table
    var lastSession: nat
    var grants: Grants
    var cache: Entries
    var audit: seq<AuditEntry>
    ghost var made: map<SessionId, Made>
    ghost var issued: set<AccessToken>

    /** A freshly installed system: users and permissions may be seeded, everything else is empty. */
    constructor (cfg: Settings, users: map<UserId, User>, lastUser: nat, grants: Grants, now: Time)
      requires grants.WellFormed() && forall u | u in users :: u <= lastUser
      ensures this.cfg == cfg && Wired() && fresh(limiter)
      ensures Start(World()) && World().core.users == users && World().grants == grants
    {
      this.cfg := cfg;
      this.limiter := new TieredRateLimiter(cfg.tiers, cfg.counterTTL);
      this.now, this.users, this.lastUser, this.grants := now, users, lastUser, grants;
      this.sessions, this.lastSession, this.cache, this.audit := map[], 0, map[], [];
      this.made, this.issued := map[], {};
    }

    /** The limiter was built from the same settings. */
    predicate Wired() {
      limiter.tiers == cfg.tiers && limiter.counterTTL == cfg.counterTTL
    }

    ghost function World(): World
      reads this, limiter
    {
      var core := Core(now, users, sessions, lastSession, made, issued);
      Requests.World(core, lastUser, grants, cache, limiter.keys, audit)
    }

    method Log(userId: Option<UserId>, action: Action)
      modifies this`audit
      ensures World() == Requests.Log(old(World()), userId, action)
    {
      audit := audit + [AuditEntry(now, userId, action)];
    }

    /** PermissionService.InvalidateUserCache: a failure is logged and otherwise ignored. */
    method InvalidateUserCache(userId: UserId, redis: bool)
      modifies this`cache
      ensures World() == Forget(old(World()), userId, redis)
    {
      if redis {
        cache := Invalidate(cache, userId);
      }
    }

    method SaveUser(id: UserId, user: User)
      modifies this`users
      ensures World() == Do(cfg, old(World()), PutUser(id, user))
    {
      users := users[id := user];
    }

    method RevokeWithTimestamp(sid: SessionId)
      modifies this`sessions
      ensures World() == Do(cfg, old(World()), RevokeOne(sid, now))
    {
      sessions := SessionTable.RevokeWithTimestamp(sessions, sid, now);
    }

    method RevokeAllByUser(userId: UserId)
      modifies this`sessions
      ensures World() == Do(cfg, old(World()), RevokeUser(userId, now))
    {
      sessions := SessionTable.RevokeAllByUser(sessions, userId, now);
    }

    method RevokeAllByUserExceptCurrent(userId: UserId, current: SessionId)
      modifies this`sessions
      ensures World() == Do(cfg, old(World()), RevokeOthers(userId, current, now))
    {
      sessions := SessionTable.RevokeAllByUserExceptCurrent(sessions, userId, current, now);
    }

    /** Returns the number of rows the UPDATE changed. */
    method TouchActivity(sid: SessionId) returns (rowsAffected: nat)
      modifies this`sessions
      ensures World() == Do(cfg, old(World()), Touch(sid, now))
      ensures rowsAffected == if Touchable(old(sessions), sid) then 1 else 0
    {
      rowsAffected := if Touchable(sessions, sid) then 1 else 0;
      sessions := SessionTable.TouchActivity(sessions, sid, now);
    }

    method InsertSession(userId: UserId, tokenHash: Hash) returns (sid: SessionId)
      requires userId in users && FreshHash(World().core, tokenHash)
      modifies this`sessions, this`lastSession, this`made
      ensures World() == Do(cfg, old(World()), Insert(userId, tokenHash, now)) && sid == lastSession
      ensures sid in made && made[sid].userId == userId
    {
      lastSession := lastSession + 1;
      sid := lastSession;
      sessions := sessions[sid := Session(userId, tokenHash, now + cfg.sessions.refreshTTL, false, None, now, now)];
      made := made[sid := Made(userId, tokenHash, now)];
    }

    /** One SELECT listing the doomed rows, one DELETE of the same predicate; no transaction around them. */
    method DeleteExpired() returns (deleted: nat, expired: seq<(SessionId, Session)>)
      modifies this`sessions
      ensures World() == Do(cfg, old(World()), Delete(now - cfg.sessions.retention))
      ensures deleted == |old(sessions)| - |sessions|
      ensures EntriesFor(expired, now) == ExpiryEntries(old(sessions), now - cfg.sessions.retention, now, lastSession)
    {
      expired := ListDoomed(sessions, now - cfg.sessions.retention, now, lastSession);
      deleted := DeleteDoomed();
    }

    /** The DELETE. */
    method DeleteDoomed() returns (deleted: nat)
      modifies this`sessions
      ensures World() == Do(cfg, old(World()), Delete(now - cfg.sessions.retention))
      ensures deleted == |old(sessions)| - |sessions|
    {
      var cutoff := now - cfg.sessions.retention;
      PurgeShrinks(sessions, cutoff);
      deleted := |sessions| - |Purge(sessions, cutoff)|;
      sessions := Purge(sessions, cutoff);
    }

    /** The codes of the join, in whatever order the database lists them. */
    method ListCodesByUserID(userId: UserId) returns (codes: seq<string>)
      ensures Elements(codes) == grants.CodesOf(userId)
    {
      codes := Listed(grants.CodesOf(userId));
    }
  }

  /** The SELECT of the condemned rows, in ascending id order. */
  method ListDoomed(rows: Table, cutoff: int, now: Time, lastId: nat) returns (expired: seq<(SessionId, Session)>)
    ensures EntriesFor(expired, now) == ExpiryEntries(rows, cutoff, now, lastId)
  {
    expired := [];
    var id := 0;
    while id <= lastId
      invariant id <= lastId + 1
      invariant EntriesFor(expired, now) == if id == 0 then [] else ExpiryEntries(rows, cutoff, now, id - 1)
    {
      if id in rows && rows[id].Doomed(cutoff) {
        AppendedEntry(expired, id, rows[id], now);
        expired := expired + [(id, rows[id])];
      }
      id := id + 1;
    }
  }

  lemma AppendedEntry(expired: seq<(SessionId, Session)>, id: SessionId, row: Session, now: Time)
    ensures EntriesFor(expired + [(id, row)], now) ==
              EntriesFor(expired, now) + [AuditEntry(now, Some(row.userId), SessionExpired(id))]
  {
    assert (expired + [(id, row)])[..|expired|] == expired;
  }

  function EntriesFor(expired: seq<(SessionId, Session)>, now: Time): seq<AuditEntry> {
    if expired == [] then []
    else
      var n := |expired| - 1;
      EntriesFor(expired[..n], now) + [AuditEntry(now, Some(expired[n].1.userId), SessionExpired(expired[n].0))]
  }

  lemma EntriesForNext(expired: seq<(SessionId, Session)>, i: nat, now: Time)
    requires i < |expired|
    ensures EntriesFor(expired[..i + 1], now) ==
            EntriesFor(expired[..i], now) + [AuditEntry(now, Some(expired[i].1.userId), SessionExpired(expired[i].0))]
  {
    assert expired[..i + 1][..i] == expired[..i];
  }

  lemma PurgeShrinks(rows: Table, cutoff: int)
    ensures |Purge(rows, cutoff)| <= |rows|
  {
    var doomed := DoomedIds(rows, cutoff);
    assert Purge(rows, cutoff).Keys == rows.Keys - doomed;
    assert rows.Keys == (rows.Keys - doomed) + doomed;
    assert |rows.Keys| == |rows.Keys - doomed| + |doomed|;
  }

  /** The members of a set, one after another in no particular order. */
  method Listed(s: set<string>) returns (list: seq<string>)
    ensures Elements(list) == s
  {
    list := [];
    var rest := s;
    while rest != {}
      invariant Elements(list) + rest == s
      decreases |rest|
    {
      var x :| x in rest;
      assert Elements(list + [x]) == Elements(list) + {x};
      list := list + [x];
      rest := rest - {x};
    }
  }
}
