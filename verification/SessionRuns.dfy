/**
 Whole runs of requests, as far as sessions are concerned: rotation keeps one live session per login,
 consumed tokens are remembered for the whole retention, and deactivated users have no live session.
 */
module SessionRuns {
  import opened Types
  import opened SessionTable
  import opened SessionProtocol
  import opened RateLimiter
  import opened Requests

  // ---- lineage, read off the audit log ----

  /** For every session opened so far, the login session its chain of refreshes started from. */
  function Roots(audit: seq<AuditEntry>): map<SessionId, SessionId> {
    if audit == [] then map[]
    else
      var n := |audit| - 1;
      Extend(Roots(audit[..n]), audit[n].action)
  }

  function Extend(roots: map<SessionId, SessionId>, action: Action): map<SessionId, SessionId> {
    match action
    case LoginSucceeded(sid) => roots[sid := sid]
    case SessionRefreshed(consumed, successor) =>
      if consumed in roots then roots[successor := roots[consumed]] else roots
    case _ => roots
  }

  /** The positions of a user's successful logins in the audit log. */
  function Logins(audit: seq<AuditEntry>, userId: UserId): set<nat> {
    set i: nat | i < |audit| && IsLogin(audit[i], userId)
  }

  /** The user opened this session by logging in. */
  ghost predicate LoggedIn(audit: seq<AuditEntry>, userId: UserId, sid: SessionId) {
    exists i :: 0 <= i < |audit| && IsLogin(audit[i], userId) && audit[i].action.sid == sid
  }

  predicate IsLogin(entry: AuditEntry, userId: UserId) {
    entry.userId == Some(userId) && entry.action.LoginSucceeded?
  }

  predicate Lineal(action: Action) {
    action.LoginSucceeded? || action.SessionRefreshed?
  }

  /** A session that is neither revoked nor deleted. */
  predicate Open(w: World, id: SessionId) {
    id in w.core.rows && !w.core.rows[id].revoked
  }

  // ---- the invariant ----

  ghost predicate Rooted(w: World, roots: map<SessionId, SessionId>, id: SessionId)
    requires id in roots && id in w.core.made
  {
    && roots[id] in w.core.made
    && w.core.made[roots[id]].userId == w.core.made[id].userId
    && LoggedIn(w.audit, w.core.made[id].userId, roots[id])
  }

  ghost predicate NewestOfChain(roots: map<SessionId, SessionId>, id: SessionId)
    requires id in roots
  {
    forall kin | kin in roots && roots[kin] == roots[id] :: kin <= id
  }

  /** Every session descends from a login of its own user, and only the newest of a chain can be open. */
  ghost predicate LineageBy(w: World, roots: map<SessionId, SessionId>) {
    && roots.Keys == w.core.made.Keys
    && (forall id {:trigger Rooted(w, roots, id)} | id in w.core.made :: Rooted(w, roots, id))
    && (forall id: SessionId | Open(w, id) && id in roots :: NewestOfChain(roots, id))
  }

  ghost predicate Lineage(w: World) {
    LineageBy(w, Roots(w.audit))
  }

  /** What is remembered of a token consumed at the instant `entry.at`. */
  predicate Remembered(cfg: Settings, w: World, entry: AuditEntry) {
    entry.action.SessionRefreshed? ==>
      var id := entry.action.consumed;
      && id in w.core.made
      && entry.userId == Some(w.core.made[id].userId)
      && (id in w.core.rows ==>
            && w.core.rows[id].revoked
            && w.core.rows[id].revokedAt == Some(entry.at)
            && entry.at < w.core.rows[id].expiresAt)
      && (id !in w.core.rows ==> entry.at + cfg.sessions.retention < w.core.now)
  }

  ghost predicate Consumed(cfg: Settings, w: World) {
    forall i | 0 <= i < |w.audit| :: Remembered(cfg, w, w.audit[i])
  }

  /** An inactive user owns no open session. */
  ghost predicate Quiet(w: World) {
    && (forall id | id in w.core.made :: w.core.made[id].userId in w.core.users)
    && (forall id: SessionId | Open(w, id) ::
          w.core.rows[id].userId in w.core.users && w.core.users[w.core.rows[id].userId].active)
  }

  ghost predicate SessionInv(cfg: Settings, w: World) {
    && Inv(cfg.sessions, w.core)
    && Lineage(w)
    && Consumed(cfg, w)
    && Quiet(w)
    && (forall u | u in w.core.users :: u <= w.lastUser)
  }

  // ---- steps that open no session ----

  predicate SameSession(before: Session, after: Session) {
    && after.userId == before.userId
    && after.expiresAt == before.expiresAt
    && after.createdAt == before.createdAt
    && (before.revoked ==> after.revoked && after.revokedAt == before.revokedAt)
  }

  /** No session is opened; rows are only touched, revoked, or deleted once doomed; the clock advances. */
  ghost predicate Calm(cfg: Settings, w: World, w': World) {
    && w'.core.made == w.core.made
    && w'.core.lastId == w.core.lastId
    && w.core.now <= w'.core.now
    && w.core.users.Keys <= w'.core.users.Keys
    && (forall id | id in w'.core.rows :: id in w.core.rows && SameSession(w.core.rows[id], w'.core.rows[id]))
    && (forall id | id in w.core.rows && id !in w'.core.rows && w.core.rows[id].revoked ::
          w.core.rows[id].Doomed(w'.core.now - cfg.sessions.retention))
    && w.audit <= w'.audit
    && (forall i | |w.audit| <= i < |w'.audit| :: !Lineal(w'.audit[i].action))
  }

  lemma CalmIsTransitive(cfg: Settings, a: World, b: World, c: World)
    requires Calm(cfg, a, b) && Calm(cfg, b, c)
    ensures Calm(cfg, a, c)
  {
    forall i | |a.audit| <= i < |c.audit|
      ensures !Lineal(c.audit[i].action)
    {
      if i < |b.audit| {
        assert c.audit[i] == b.audit[i];
      }
    }
    forall id | id in c.core.rows
      ensures id in a.core.rows && SameSession(a.core.rows[id], c.core.rows[id])
    {
      assert SameSession(b.core.rows[id], c.core.rows[id]);
    }
    forall id | id in a.core.rows && id !in c.core.rows && a.core.rows[id].revoked
      ensures a.core.rows[id].Doomed(c.core.now - cfg.sessions.retention)
    {
      if id in b.core.rows {
        assert SameSession(a.core.rows[id], b.core.rows[id]);
      }
    }
  }

  lemma DoIsCalm(cfg: Settings, w: World, e: Event)
    requires Inv(cfg.sessions, w.core) && Enabled(cfg.sessions, w.core, e) && !e.Insert?
    ensures Inv(cfg.sessions, Do(cfg, w, e).core)
    ensures Calm(cfg, w, Do(cfg, w, e))
  {
    StepKeepsInv(cfg.sessions, w.core, e);
  }

  // ---- calm steps keep the invariant ----

  lemma {:induction false} NeutralSuffix(audit: seq<AuditEntry>, longer: seq<AuditEntry>)
    requires audit <= longer && forall i | |audit| <= i < |longer| :: !Lineal(longer[i].action)
    ensures Roots(longer) == Roots(audit)
    decreases |longer|
  {
    if |longer| == |audit| {
      assert longer == audit;
    } else {
      NeutralSuffix(audit, longer[..|longer| - 1]);
    }
  }

  lemma CalmKeepsLineage(cfg: Settings, w: World, w': World)
    requires Lineage(w) && Calm(cfg, w, w')
    ensures Lineage(w')
  {
    var roots := Roots(w.audit);
    NeutralSuffix(w.audit, w'.audit);
    forall id | id in w'.core.made
      ensures Rooted(w', roots, id)
    {
      assert Rooted(w, roots, id);
      LoginsStay(w.audit, w'.audit, w.core.made[id].userId, roots[id]);
    }
    forall id: SessionId | Open(w', id) && id in roots
      ensures NewestOfChain(roots, id)
    {
      assert SameSession(w.core.rows[id], w'.core.rows[id]);
      assert Open(w, id);
    }
    assert LineageBy(w', roots);
  }

  lemma LoginsStay(audit: seq<AuditEntry>, longer: seq<AuditEntry>, userId: UserId, sid: SessionId)
    requires audit <= longer && LoggedIn(audit, userId, sid)
    ensures LoggedIn(longer, userId, sid)
  {
    var i :| 0 <= i < |audit| && IsLogin(audit[i], userId) && audit[i].action.sid == sid;
    assert longer[i] == audit[i];
  }

  lemma CalmKeepsConsumed(cfg: Settings, w: World, w': World)
    requires Inv(cfg.sessions, w.core) && Consumed(cfg, w) && Calm(cfg, w, w')
    ensures Consumed(cfg, w')
  {
    forall i | 0 <= i < |w'.audit|
      ensures Remembered(cfg, w', w'.audit[i])
    {
      if i < |w.audit| {
        assert w'.audit[i] == w.audit[i] && Remembered(cfg, w, w.audit[i]);
      }
    }
  }

  // ---- opening a session ----

  /** The chain starting at `root` has no open session left. */
  ghost predicate Free(w: World, root: SessionId) {
    forall id: SessionId | Open(w, id) && id in Roots(w.audit) :: Roots(w.audit)[id] != root
  }

  lemma RootsAfter(audit: seq<AuditEntry>, created: AuditEntry, last: AuditEntry)
    requires !Lineal(created.action)
    ensures Roots(audit + [created] + [last]) == Extend(Roots(audit), last.action)
  {
    var longer := audit + [created];
    assert longer[..|audit|] == audit;
    assert (longer + [last])[..|longer|] == longer;
  }

  /** The state once a session is created for the user and the audit entry naming it is written. */
  ghost predicate Opened(cfg: Settings, w: World, w': World, userId: UserId, newToken: Hash, action: Action) {
    var sid := w.core.lastId + 1;
    var m := Made(userId, newToken, w.core.now);
    && userId in w.core.users
    && w'.core.made == w.core.made[sid := m]
    && w'.core.rows == w.core.rows[sid := NewRow(cfg.sessions, w.core, m)]
    && w'.core.users == w.core.users && w'.core.now == w.core.now && w'.lastUser == w.lastUser
    && w'.audit == w.audit
                   + [AuditEntry(w.core.now, Some(userId), SessionCreated(sid))]
                   + [AuditEntry(w.core.now, Some(userId), action)]
    && (action == LoginSucceeded(sid)
        || (action.SessionRefreshed? && action.successor == sid && Rotates(w, userId, action.consumed)))
  }

  /** The consumed session was revoked just now, before it expired, and its chain has nothing open. */
  ghost predicate Rotates(w: World, userId: UserId, consumed: SessionId) {
    && consumed in w.core.made && w.core.made[consumed].userId == userId
    && consumed in Roots(w.audit) && Free(w, Roots(w.audit)[consumed])
    && consumed in w.core.rows && w.core.rows[consumed].revoked
    && w.core.rows[consumed].revokedAt == Some(w.core.now)
    && w.core.now < w.core.rows[consumed].expiresAt
  }

  lemma CreateSessionAdds(cfg: Settings, w: World, userId: UserId, newToken: Hash)
    requires Inv(cfg.sessions, w.core) && userId in w.core.users && FreshHash(w.core, newToken)
    ensures var (created, pair) := CreateSession(cfg, w, userId, newToken);
            && Inv(cfg.sessions, created.core)
            && pair.sid == w.core.lastId + 1 && pair.sid !in w.core.made && pair.sid !in w.core.rows
            && created.core.made == w.core.made[pair.sid := Made(userId, newToken, w.core.now)]
            && created.core.rows ==
               w.core.rows[pair.sid := NewRow(cfg.sessions, w.core, Made(userId, newToken, w.core.now))]
            && created.core.users == w.core.users && created.core.now == w.core.now && created.core.lastId == pair.sid
            && created.audit == w.audit + [AuditEntry(w.core.now, Some(userId), SessionCreated(pair.sid))]
  {
    var inserted := Do(cfg, w, Insert(userId, newToken, w.core.now));
    StepKeepsInv(cfg.sessions, w.core, Insert(userId, newToken, w.core.now));
    StepKeepsInv(cfg.sessions, inserted.core, Issue(inserted.core.lastId));
  }

  /** One session more, with the same users' older sessions and a longer log; no older session reopens. */
  ghost predicate Adds(w: World, w': World, sid: SessionId) {
    && sid !in w.core.made
    && w'.core.made.Keys == w.core.made.Keys + {sid}
    && (forall id | id in w.core.made :: w'.core.made[id] == w.core.made[id])
    && w.audit <= w'.audit
    && forall id: SessionId | Open(w', id) && id != sid :: Open(w, id)
  }

  lemma RootedStays(w: World, w': World, roots: map<SessionId, SessionId>, sid: SessionId, root: SessionId,
                    id: SessionId)
    requires Adds(w, w', sid) && id in w.core.made && id in roots && Rooted(w, roots, id)
    ensures Rooted(w', roots[sid := root], id)
  {
    LoginsStay(w.audit, w'.audit, w.core.made[id].userId, roots[id]);
  }

  lemma NewestStays(roots: map<SessionId, SessionId>, sid: SessionId, root: SessionId, id: SessionId)
    requires id in roots && id != sid && NewestOfChain(roots, id) && roots[id] != root
    ensures NewestOfChain(roots[sid := root], id)
  {
  }

  lemma AllRooted(w: World, w': World, roots: map<SessionId, SessionId>, sid: SessionId, root: SessionId)
    requires LineageBy(w, roots) && Adds(w, w', sid)
    requires Rooted(w', roots[sid := root], sid)
    ensures forall id {:trigger Rooted(w', roots[sid := root], id)} | id in w'.core.made ::
              Rooted(w', roots[sid := root], id)
  {
    forall id | id in w'.core.made
      ensures Rooted(w', roots[sid := root], id)
    {
      if id != sid {
        assert Rooted(w, roots, id);
        RootedStays(w, w', roots, sid, root, id);
      }
    }
  }

  lemma OnlyNewestOpen(w: World, w': World, roots: map<SessionId, SessionId>, sid: SessionId, root: SessionId)
    requires forall id: SessionId | Open(w, id) && id in roots :: NewestOfChain(roots, id)
    requires forall id: SessionId | Open(w', id) && id != sid :: Open(w, id)
    requires forall id | id in roots :: id < sid
    requires forall id: SessionId | Open(w, id) && id in roots :: roots[id] != root
    ensures forall id: SessionId | Open(w', id) && id in roots[sid := root] :: NewestOfChain(roots[sid := root], id)
  {
    forall id: SessionId | Open(w', id) && id in roots[sid := root]
      ensures NewestOfChain(roots[sid := root], id)
    {
      if id != sid {
        assert Open(w, id) && id in roots;
        NewestStays(roots, sid, root, id);
      }
    }
  }

  lemma ChainsGrow(w: World, w': World, roots: map<SessionId, SessionId>, sid: SessionId, root: SessionId)
    requires LineageBy(w, roots) && Adds(w, w', sid)
    requires forall id | id in w.core.made :: id < sid
    requires Rooted(w', roots[sid := root], sid)
    requires forall id: SessionId | Open(w, id) && id in roots :: roots[id] != root
    ensures LineageBy(w', roots[sid := root])
  {
    AllRooted(w, w', roots, sid, root);
    OnlyNewestOpen(w, w', roots, sid, root);
  }

  lemma OpenedAdds(cfg: Settings, w: World, w': World, userId: UserId, newToken: Hash, action: Action)
    requires (forall id | id in w.core.made :: id <= w.core.lastId) && Opened(cfg, w, w', userId, newToken, action)
    ensures var sid := w.core.lastId + 1;
            && Adds(w, w', sid) && w'.core.made[sid].userId == userId && (forall id | id in w.core.made :: id < sid)
            && Roots(w'.audit) == Extend(Roots(w.audit), action)
  {
    RootsAfter(w.audit, AuditEntry(w.core.now, Some(userId), SessionCreated(w.core.lastId + 1)),
               AuditEntry(w.core.now, Some(userId), action));
    assert forall i | 0 <= i < |w.audit| :: w'.audit[i] == w.audit[i];
  }

  lemma LoginKeepsLineage(cfg: Settings, w: World, w': World, userId: UserId, newToken: Hash, sid: SessionId)
    requires (forall id | id in w.core.made :: id <= w.core.lastId) && Lineage(w)
    requires sid == w.core.lastId + 1 && Opened(cfg, w, w', userId, newToken, LoginSucceeded(sid))
    ensures Lineage(w')
  {
    var last := AuditEntry(w.core.now, Some(userId), LoginSucceeded(sid));
    assert w'.audit[|w.audit| + 1] == last && IsLogin(last, userId);
    assert LoggedIn(w'.audit, userId, sid);
    var roots := Roots(w.audit);
    forall id: SessionId | Open(w, id) && id in roots
      ensures roots[id] != sid
    {
      assert Rooted(w, roots, id);
    }
    OpenedAdds(cfg, w, w', userId, newToken, LoginSucceeded(sid));
    ChainsGrow(w, w', roots, sid, sid);
  }

  lemma ChainGrowsFrom(w: World, w': World, roots: map<SessionId, SessionId>, sid: SessionId, consumed: SessionId)
    requires LineageBy(w, roots) && Adds(w, w', sid)
    requires forall id | id in w.core.made :: id < sid
    requires consumed in w.core.made && w'.core.made[sid].userId == w.core.made[consumed].userId
    requires forall id: SessionId | Open(w, id) && id in roots :: roots[id] != roots[consumed]
    ensures LineageBy(w', roots[sid := roots[consumed]])
  {
    var root := roots[consumed];
    assert Rooted(w, roots, consumed);
    LoginsStay(w.audit, w'.audit, w.core.made[consumed].userId, root);
    ChainsGrow(w, w', roots, sid, root);
  }

  lemma RefreshKeepsLineage(cfg: Settings, w: World, w': World, userId: UserId, newToken: Hash,
                            consumed: SessionId, sid: SessionId)
    requires (forall id | id in w.core.made :: id <= w.core.lastId) && Lineage(w)
    requires sid == w.core.lastId + 1 && Opened(cfg, w, w', userId, newToken, SessionRefreshed(consumed, sid))
    ensures Lineage(w')
  {
    OpenedAdds(cfg, w, w', userId, newToken, SessionRefreshed(consumed, sid));
    ChainGrowsFrom(w, w', Roots(w.audit), sid, consumed);
  }

  lemma OpenKeepsConsumed(cfg: Settings, w: World, w': World, userId: UserId, newToken: Hash, action: Action)
    requires Inv(cfg.sessions, w.core) && Consumed(cfg, w)
    requires Opened(cfg, w, w', userId, newToken, action)
    ensures Consumed(cfg, w')
  {
    forall i | 0 <= i < |w'.audit|
      ensures Remembered(cfg, w', w'.audit[i])
    {
      if i < |w.audit| {
        assert w'.audit[i] == w.audit[i] && Remembered(cfg, w, w.audit[i]);
      }
    }
  }

  lemma OpenKeepsInv(cfg: Settings, w: World, w': World, userId: UserId, newToken: Hash, action: Action)
    requires SessionInv(cfg, w)
    requires Opened(cfg, w, w', userId, newToken, action) && w.core.users[userId].active
    requires Inv(cfg.sessions, w'.core)
    ensures SessionInv(cfg, w')
  {
    if action.LoginSucceeded? {
      LoginKeepsLineage(cfg, w, w', userId, newToken, action.sid);
    } else {
      RefreshKeepsLineage(cfg, w, w', userId, newToken, action.consumed, action.successor);
    }
    OpenKeepsConsumed(cfg, w, w', userId, newToken, action);
    assert Quiet(w') by {
      forall id: SessionId | Open(w', id)
        ensures w'.core.rows[id].userId in w'.core.users && w'.core.users[w'.core.rows[id].userId].active
      {
        assert id in w.core.rows ==> Open(w, id);
      }
    }
  }

  // ---- every request keeps the invariant ----

  lemma CalmRequest(cfg: Settings, w: World, w': World)
    requires SessionInv(cfg, w) && Calm(cfg, w, w') && Inv(cfg.sessions, w'.core)
    requires forall u | u in w'.core.users :: u <= w'.lastUser
    requires forall u | u in w.core.users :: w'.core.users[u].active == w.core.users[u].active
    ensures SessionInv(cfg, w')
  {
    CalmKeepsLineage(cfg, w, w');
    CalmKeepsConsumed(cfg, w, w');
    forall id: SessionId | Open(w', id)
      ensures w'.core.rows[id].userId in w'.core.users && w'.core.users[w'.core.rows[id].userId].active
    {
      assert SameSession(w.core.rows[id], w'.core.rows[id]);
      assert Open(w, id);
    }
  }

  /** A request that leaves the core alone and logs nothing about logins or refreshes. */
  ghost predicate Aside(w: World, w': World) {
    && w'.core == w.core && w'.lastUser == w.lastUser
    && w.audit <= w'.audit
    && forall i | |w.audit| <= i < |w'.audit| :: !Lineal(w'.audit[i].action)
  }

  lemma AsideKeepsInv(cfg: Settings, w: World, w': World)
    requires SessionInv(cfg, w) && Aside(w, w')
    ensures SessionInv(cfg, w')
  {
    CalmRequest(cfg, w, w');
  }

  /** One session event followed by other bookkeeping. */
  lemma EventKeepsInv(cfg: Settings, w: World, e: Event, w': World)
    requires SessionInv(cfg, w) && Enabled(cfg.sessions, w.core, e) && !e.Insert? && !e.PutUser?
    requires Aside(Do(cfg, w, e), w')
    ensures SessionInv(cfg, w')
  {
    var done := Do(cfg, w, e);
    DoIsCalm(cfg, w, e);
    CalmRequest(cfg, w, done);
    AsideKeepsInv(cfg, done, w');
  }

  lemma CheckLoginIsAside(cfg: Settings, w: World, key: string, email: string)
    ensures var w' := CheckLogin(cfg, w, key, email).0;
            Aside(w, w') && w' == w.(keys := w'.keys, audit := w'.audit)
  {
  }

  lemma RehashKeepsInv(cfg: Settings, w: World, id: UserId, needed: bool, newHash: string)
    requires SessionInv(cfg, w) && id in w.core.users
    ensures SessionInv(cfg, Rehash(cfg, w, id, needed, newHash))
  {
    if needed {
      var e := PutUser(id, w.core.users[id].(passwordHash := newHash));
      DoIsCalm(cfg, w, e);
      CalmRequest(cfg, w, Do(cfg, w, e));
    }
  }

  lemma WelcomeKeepsInv(cfg: Settings, w: World, id: UserId, input: LoginInput)
    requires SessionInv(cfg, w) && FreshHash(w.core, input.newToken)
    requires id in w.core.users && w.core.users[id].active
    ensures SessionInv(cfg, Welcome(cfg, w, id, input).0)
  {
    CreateSessionAdds(cfg, w, id, input.newToken);
    OpenKeepsInv(cfg, w, Welcome(cfg, w, id, input).0, id, input.newToken, LoginSucceeded(w.core.lastId + 1));
  }

  lemma AdmitKeepsInv(cfg: Settings, w: World, input: LoginInput)
    requires SessionInv(cfg, w) && FreshHash(w.core, input.newToken)
    ensures SessionInv(cfg, Admit(cfg, w, input).0)
  {
    match CheckCredentials(cfg, w, input)
    case Err(_) => AsideKeepsInv(cfg, w, Admit(cfg, w, input).0);
    case Ok((id, needsRehash)) =>
      RehashKeepsInv(cfg, w, id, needsRehash, input.newHash);
      WelcomeKeepsInv(cfg, Rehash(cfg, w, id, needsRehash, input.newHash), id, input);
  }

  /** A login is its limiter checks, which stay aside, and then either refused or whatever Admit makes of it. */
  lemma LoginIsAdmit(cfg: Settings, w: World, input: LoginInput) returns (checked: World)
    requires FreshHash(w.core, input.newToken)
    ensures Aside(w, checked) && checked == w.(keys := checked.keys, audit := checked.audit)
    ensures Login(cfg, w, input) == Admit(cfg, checked, input)
         || (Login(cfg, w, input).0 == checked && Login(cfg, w, input).1.Err?)
  {
    checked := w;
    if input.answered >= 1 {
      var (w1, ipPasses) := CheckLogin(cfg, w, LoginIPKey(input.ip), input.email);
      CheckLoginIsAside(cfg, w, LoginIPKey(input.ip), input.email);
      checked := w1;
      if ipPasses && input.answered >= 2 {
        CheckLoginIsAside(cfg, w1, LoginEmailKey(input.email), input.email);
        checked := CheckLogin(cfg, w1, LoginEmailKey(input.email), input.email).0;
      }
    }
  }

  lemma LoginKeepsInv(cfg: Settings, w: World, input: LoginInput)
    requires SessionInv(cfg, w) && FreshHash(w.core, input.newToken)
    ensures SessionInv(cfg, Login(cfg, w, input).0)
  {
    var checked := LoginIsAdmit(cfg, w, input);
    AsideKeepsInv(cfg, w, checked);
    AdmitKeepsInv(cfg, checked, input);
  }

  /** Revoking the presented session is what makes its chain free for a successor. */
  lemma RevokingRotates(cfg: Settings, w: World, sid: SessionId)
    requires SessionInv(cfg, w) && sid in w.core.rows && w.core.rows[sid].Active(w.core.now)
    ensures var revoked := Do(cfg, w, RevokeOne(sid, w.core.now));
            SessionInv(cfg, revoked) && Rotates(revoked, w.core.rows[sid].userId, sid)
  {
    var e := RevokeOne(sid, w.core.now);
    var revoked := Do(cfg, w, e);
    EventKeepsInv(cfg, w, e, revoked);
    var roots := Roots(w.audit);
    forall id: SessionId | Open(revoked, id) && id in roots
      ensures roots[id] != roots[sid]
    {
      assert Open(w, id) && Open(w, sid);
      assert NewestOfChain(roots, id) && NewestOfChain(roots, sid);
    }
  }

  lemma SucceedKeepsInv(cfg: Settings, w: World, userId: UserId, consumed: SessionId, newToken: Hash, redis: bool)
    requires SessionInv(cfg, w) && FreshHash(w.core, newToken) && Rotates(w, userId, consumed)
    requires userId in w.core.users && w.core.users[userId].active
    ensures SessionInv(cfg, Succeed(cfg, w, userId, consumed, newToken, redis).0)
  {
    CreateSessionAdds(cfg, w, userId, newToken);
    OpenKeepsInv(cfg, w, Succeed(cfg, w, userId, consumed, newToken, redis).0, userId, newToken,
                 SessionRefreshed(consumed, w.core.lastId + 1));
  }

  lemma RotateKeepsInv(cfg: Settings, w: World, sid: SessionId, newToken: Hash, redis: bool)
    requires SessionInv(cfg, w) && sid in w.core.rows && w.core.rows[sid].Active(w.core.now)
               && FreshHash(w.core, newToken)
    requires w.core.rows[sid].userId in w.core.users && w.core.users[w.core.rows[sid].userId].active
    ensures SessionInv(cfg, Rotate(cfg, w, sid, newToken, redis).0)
  {
    RevokingRotates(cfg, w, sid);
    SucceedKeepsInv(cfg, Do(cfg, w, RevokeOne(sid, w.core.now)), w.core.rows[sid].userId, sid, newToken, redis);
  }

  lemma RefreshKeepsInv(cfg: Settings, w: World, token: Hash, newToken: Hash, redis: bool)
    requires SessionInv(cfg, w) && FreshHash(w.core, newToken)
    ensures SessionInv(cfg, Refresh(cfg, w, token, newToken, redis).0)
  {
    match FindByHash(w.core.rows, token, Some(w.core.now), w.core.lastId)
    case None => RefreshMissKeepsInv(cfg, w, token);
    case Some(sid) =>
      var userId := w.core.rows[sid].userId;
      if userId in w.core.users && w.core.users[userId].active {
        RotateKeepsInv(cfg, w, sid, newToken, redis);
      }
  }

  lemma RefreshMissKeepsInv(cfg: Settings, w: World, token: Hash)
    requires SessionInv(cfg, w)
    ensures SessionInv(cfg, RefreshMiss(cfg, w, token).0)
  {
    var (w', r) := RefreshMiss(cfg, w, token);
    if r == Err(TokenReuse) {
      var sid := FindByHash(w.core.rows, token, None, w.core.lastId).value;
      EventKeepsInv(cfg, w, RevokeUser(w.core.rows[sid].userId, w.core.now), w');
    }
  }

  lemma {:induction false} ExpiryEntriesAreNeutral(rows: Table, cutoff: int, now: Time, upTo: nat)
    ensures forall i | 0 <= i < |ExpiryEntries(rows, cutoff, now, upTo)| ::
              !Lineal(ExpiryEntries(rows, cutoff, now, upTo)[i].action)
  {
    if upTo > 0 {
      ExpiryEntriesAreNeutral(rows, cutoff, now, upTo - 1);
    }
  }

  lemma LogoutKeepsInv(cfg: Settings, w: World, token: Hash)
    requires SessionInv(cfg, w)
    ensures SessionInv(cfg, Logout(cfg, w, token))
  {
    var found := FindByHash(w.core.rows, token, Some(w.core.now), w.core.lastId);
    if found.Some? {
      EventKeepsInv(cfg, w, RevokeOne(found.value, w.core.now), Logout(cfg, w, token));
    }
  }

  lemma AuthenticateKeepsInv(cfg: Settings, w: World, access: AccessToken)
    requires SessionInv(cfg, w)
    ensures SessionInv(cfg, Authenticate(cfg, w, access).0)
  {
    var w' := Authenticate(cfg, w, access).0;
    if w' != w {
      EventKeepsInv(cfg, w, Touch(access.sid, w.core.now), w');
    }
  }

  lemma RevokeSessionKeepsInv(cfg: Settings, w: World, sid: SessionId, userId: UserId)
    requires SessionInv(cfg, w)
    ensures SessionInv(cfg, RevokeSession(cfg, w, sid, userId).0)
  {
    var w' := RevokeSession(cfg, w, sid, userId).0;
    if w' != w {
      EventKeepsInv(cfg, w, RevokeOne(sid, w.core.now), w');
    }
  }

  lemma RevokeOthersKeepsInv(cfg: Settings, w: World, userId: UserId, current: SessionId)
    requires SessionInv(cfg, w)
    ensures SessionInv(cfg, RevokeOtherSessions(cfg, w, userId, current))
  {
    EventKeepsInv(cfg, w, RevokeOthers(userId, current, w.core.now), RevokeOtherSessions(cfg, w, userId, current));
  }

  lemma CleanupKeepsInv(cfg: Settings, w: World)
    requires SessionInv(cfg, w)
    ensures SessionInv(cfg, CleanupSessions(cfg, w))
  {
    var cutoff := w.core.now - cfg.sessions.retention;
    ExpiryEntriesAreNeutral(w.core.rows, cutoff, w.core.now, w.core.lastId);
    EventKeepsInv(cfg, w, Delete(cutoff), CleanupSessions(cfg, w));
  }

  lemma CreateUserKeepsInv(cfg: Settings, w: World, actor: UserId, user: User, password: string)
    requires SessionInv(cfg, w)
    ensures SessionInv(cfg, CreateUser(cfg, w, actor, user, password).0)
  {
    var (w', r) := CreateUser(cfg, w, actor, user, password);
    if r.Ok? {
      var e := PutUser(r.value, user.(active := true));
      DoIsCalm(cfg, w, e);
      var saved := Do(cfg, w, e).(lastUser := r.value);
      CalmRequest(cfg, w, saved);
      AsideKeepsInv(cfg, saved, w');
    }
  }

  lemma {:induction false} RequireAllIsAside(cfg: Settings, w: World, actor: UserId, codes: seq<string>, redis: bool)
    ensures var asked := RequireAll(cfg, w, actor, codes, redis).0;
            asked == w.(cache := asked.cache)
    decreases |codes|
  {
    if codes != [] {
      var (asked, allowed) := HasPermission(cfg, w, actor, codes[0], redis);
      if allowed {
        RequireAllIsAside(cfg, asked, actor, codes[1..], redis);
      }
    }
  }

  lemma QuietAfter(w: World, w': World)
    requires Quiet(w) && w'.core.made == w.core.made && w.core.users.Keys <= w'.core.users.Keys
    requires forall id: SessionId | Open(w', id) ::
               Open(w, id) && w'.core.rows[id].userId == w.core.rows[id].userId
               && (w.core.users[w.core.rows[id].userId].active ==> w'.core.users[w.core.rows[id].userId].active)
    ensures Quiet(w')
  {
  }

  /** Deactivation saves the user first and sweeps the sessions second; after both no session is open. */
  lemma DeactivationKeepsInv(cfg: Settings, w: World, userId: UserId, edited: User, redis: bool)
    requires SessionInv(cfg, w) && userId in w.core.users
    ensures var saved := Do(cfg, w, PutUser(userId, edited));
            SessionInv(cfg, Forget(Do(cfg, saved, RevokeUser(userId, w.core.now)), userId, redis))
  {
    var saved := Do(cfg, w, PutUser(userId, edited));
    var swept := Do(cfg, saved, RevokeUser(userId, w.core.now));
    DoIsCalm(cfg, w, PutUser(userId, edited));
    DoIsCalm(cfg, saved, RevokeUser(userId, w.core.now));
    CalmIsTransitive(cfg, w, saved, swept);
    CalmKeepsLineage(cfg, w, swept);
    CalmKeepsConsumed(cfg, w, swept);
    QuietAfter(w, swept);
    AsideKeepsInv(cfg, swept, Forget(swept, userId, redis));
  }

  lemma EditKeepsInv(cfg: Settings, w: World, userId: UserId, edited: User)
    requires SessionInv(cfg, w) && userId in w.core.users
    requires w.core.users[userId].active ==> edited.active
    ensures SessionInv(cfg, Do(cfg, w, PutUser(userId, edited)))
  {
    var saved := Do(cfg, w, PutUser(userId, edited));
    DoIsCalm(cfg, w, PutUser(userId, edited));
    CalmKeepsLineage(cfg, w, saved);
    CalmKeepsConsumed(cfg, w, saved);
    QuietAfter(w, saved);
  }

  lemma SettleKeepsInv(cfg: Settings, w: World, userId: UserId, edited: User, redis: bool)
    requires SessionInv(cfg, w) && userId in w.core.users
    ensures SessionInv(cfg, Settle(cfg, w, userId, edited, redis))
  {
    if w.core.users[userId].active && !edited.active {
      DeactivationKeepsInv(cfg, w, userId, edited, redis);
    } else {
      EditKeepsInv(cfg, w, userId, edited);
    }
  }

  lemma ApplyUpdateKeepsInv(cfg: Settings, w: World, actor: UserId, userId: UserId, edited: User, redis: bool)
    requires SessionInv(cfg, w) && userId in w.core.users
    ensures SessionInv(cfg, ApplyUpdate(cfg, w, actor, userId, edited, redis).0)
  {
    var settled := Settle(cfg, w, userId, edited, redis);
    SettleKeepsInv(cfg, w, userId, edited, redis);
    AsideKeepsInv(cfg, settled, ApplyUpdate(cfg, w, actor, userId, edited, redis).0);
  }

  lemma UpdateUserKeepsInv(cfg: Settings, w: World, actor: UserId, userId: UserId, input: UserInput,
                           newHash: string, redis: bool)
    requires SessionInv(cfg, w)
    ensures SessionInv(cfg, UpdateUser(cfg, w, actor, userId, input, newHash, redis).0)
  {
    var (w', r) := UpdateUser(cfg, w, actor, userId, input, newHash, redis);
    var asked := RequireAll(cfg, w, actor, PermissionsNeeded(input), redis).0;
    RequireAllIsAside(cfg, w, actor, PermissionsNeeded(input), redis);
    AsideKeepsInv(cfg, w, asked);
    if r.Ok? {
      ApplyUpdateKeepsInv(cfg, asked, actor, userId, Edited(asked.core.users[userId], input, newHash), redis);
    }
  }

  /** The clock does not go back, and no account changes but for its password hash. */
  ghost predicate AccountsKept(w: World, w': World) {
    && w.core.now <= w'.core.now
    && w'.core.users.Keys == w.core.users.Keys
    && forall u | u in w.core.users ::
         w'.core.users[u] == w.core.users[u].(passwordHash := w'.core.users[u].passwordHash)
  }

  lemma CreateSessionKeepsAccounts(cfg: Settings, w: World, userId: UserId, newToken: Hash)
    requires userId in w.core.users && FreshHash(w.core, newToken)
    ensures CreateSession(cfg, w, userId, newToken).0.core.users == w.core.users
    ensures CreateSession(cfg, w, userId, newToken).0.core.now == w.core.now
  {
  }

  lemma RehashKeepsAccounts(cfg: Settings, w: World, id: UserId, needed: bool, newHash: string)
    requires id in w.core.users
    ensures AccountsKept(w, Rehash(cfg, w, id, needed, newHash))
    ensures Rehash(cfg, w, id, needed, newHash).core.made == w.core.made
  {
  }

  lemma AdmitKeepsAccounts(cfg: Settings, w: World, input: LoginInput)
    requires FreshHash(w.core, input.newToken)
    ensures AccountsKept(w, Admit(cfg, w, input).0)
  {
    match CheckCredentials(cfg, w, input)
    case Err(_) =>
    case Ok((id, needsRehash)) =>
      RehashKeepsAccounts(cfg, w, id, needsRehash, input.newHash);
      CreateSessionKeepsAccounts(cfg, Rehash(cfg, w, id, needsRehash, input.newHash), id, input.newToken);
  }

  lemma LoginKeepsAccounts(cfg: Settings, w: World, input: LoginInput)
    requires FreshHash(w.core, input.newToken)
    ensures AccountsKept(w, Login(cfg, w, input).0)
  {
    var checked := LoginIsAdmit(cfg, w, input);
    AdmitKeepsAccounts(cfg, checked, input);
  }

  lemma RefreshKeepsAccounts(cfg: Settings, w: World, token: Hash, newToken: Hash, redis: bool)
    requires FreshHash(w.core, newToken)
    ensures AccountsKept(w, Refresh(cfg, w, token, newToken, redis).0)
  {
  }

  predicate ConcernsPermissions(op: Op) {
    op.HasPermissionOp? || op.GrantOp? || op.RevokeOp? || op.CreatePermissionOp? || op.DescribeOp?
        || op.DeletePermissionOp?
  }

  lemma PermissionRequestIsAside(cfg: Settings, w: World, r: Request)
    requires ConcernsPermissions(r.op)
    ensures Aside(w, Exec(cfg, w, r))
  {
  }

  /** Only the two user-management requests change accounts in more than the password hash. */
  lemma ExecKeepsAccounts(cfg: Settings, w: World, r: Request)
    requires Admissible(w, r.op) && !r.op.CreateUserOp? && !r.op.UpdateUserOp?
    ensures AccountsKept(w, Exec(cfg, w, r))
  {
    match r.op
    case LoginOp(input) => LoginKeepsAccounts(cfg, w, input);
    case RefreshOp(token, newToken) => RefreshKeepsAccounts(cfg, w, token, newToken, r.redis);
    case _ =>
      if ConcernsPermissions(r.op) {
        PermissionRequestIsAside(cfg, w, r);
      } else {
        SmallRequestKeepsAccounts(cfg, w, r);
      }
  }

  lemma SmallRequestKeepsAccounts(cfg: Settings, w: World, r: Request)
    requires Admissible(w, r.op) && !ConcernsPermissions(r.op)
    requires !r.op.LoginOp? && !r.op.RefreshOp? && !r.op.CreateUserOp? && !r.op.UpdateUserOp?
    ensures AccountsKept(w, Exec(cfg, w, r))
  {
  }

  lemma ExecKeepsInv(cfg: Settings, w: World, r: Request)
    requires SessionInv(cfg, w) && Admissible(w, r.op)
    ensures SessionInv(cfg, Exec(cfg, w, r))
  {
    if ConcernsPermissions(r.op) {
      PermissionRequestIsAside(cfg, w, r);
      AsideKeepsInv(cfg, w, Exec(cfg, w, r));
    } else {
      match r.op
      case Wait(to) => EventKeepsInv(cfg, w, Tick(to), Do(cfg, w, Tick(to)));
      case LoginOp(input) => LoginKeepsInv(cfg, w, input);
      case RefreshOp(token, newToken) => RefreshKeepsInv(cfg, w, token, newToken, r.redis);
      case LogoutOp(token) => LogoutKeepsInv(cfg, w, token);
      case AuthenticateOp(access) => AuthenticateKeepsInv(cfg, w, access);
      case RevokeSessionOp(sid, userId) => RevokeSessionKeepsInv(cfg, w, sid, userId);
      case RevokeOthersOp(userId, current) => RevokeOthersKeepsInv(cfg, w, userId, current);
      case CleanupOp => CleanupKeepsInv(cfg, w);
      case CreateUserOp(actor, user, password) => CreateUserKeepsInv(cfg, w, actor, user, password);
      case UpdateUserOp(actor, userId, input, newHash) =>
          UpdateUserKeepsInv(cfg, w, actor, userId, input, newHash, r.redis);
    }
  }

  lemma {:induction false} TraceKeepsInv(cfg: Settings, ws: seq<World>, rs: seq<Request>, i: nat)
    requires Trace(cfg, ws, rs) && i < |ws|
    ensures SessionInv(cfg, ws[i])
  {
    if i > 0 {
      TraceKeepsInv(cfg, ws, rs, i - 1);
      ExecKeepsInv(cfg, ws[i - 1], rs[i - 1]);
    }
  }
}
