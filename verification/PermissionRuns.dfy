/**
 Whole runs of requests, as far as permissions are concerned: the cache answers as the join would, or as
 it would have less than one TTL ago; and an administrator, once there is one, never disappears.
 */
module PermissionRuns {
  import opened Types
  import opened SessionProtocol
  import opened Matching
  import opened PermissionTable
  import opened PermissionCache
  import opened Requests
  import opened SessionRuns

  // ---- what a request does to the cache and the tables ----

  /** Every entry after the request was there before, or was just filled from the join. */
  ghost predicate CacheFrom(cfg: Settings, w: World, w': World) {
    forall u | u in w'.cache ::
      || (u in w.cache && w'.cache[u] == w.cache[u])
      || w'.cache[u] == Entry(w.grants.CodesOf(u), w.core.now + cfg.permTTL)
  }

  /** A request that writes to user_permissions. */
  predicate Assigns(op: Op) {
    op.GrantOp? || op.RevokeOp?
  }

  lemma {:induction false} RequireAllFills(cfg: Settings, w: World, actor: UserId, codes: seq<string>, redis: bool)
    ensures CacheFrom(cfg, w, RequireAll(cfg, w, actor, codes, redis).0)
    decreases |codes|
  {
    if codes != [] {
      var (asked, allowed) := HasPermission(cfg, w, actor, codes[0], redis);
      if allowed {
        RequireAllFills(cfg, asked, actor, codes[1..], redis);
      }
    }
  }

  lemma AdmitKeepsGrants(cfg: Settings, w: World, input: LoginInput)
    requires FreshHash(w.core, input.newToken)
    ensures var w' := Admit(cfg, w, input).0;
            w'.grants == w.grants && (w'.cache == w.cache || exists u :: w'.cache == w.cache - {u})
  {
  }

  lemma LoginKeepsGrants(cfg: Settings, w: World, r: Request)
    requires Admissible(w, r.op) && (r.op.LoginOp? || r.op.RefreshOp?)
    ensures CacheFrom(cfg, w, Exec(cfg, w, r)) && Exec(cfg, w, r).grants == w.grants
  {
    if r.op.LoginOp? {
      var checked := LoginIsAdmit(cfg, w, r.op.login);
      AdmitKeepsGrants(cfg, checked, r.op.login);
    }
  }

  lemma ApplyUpdateKeepsGrants(cfg: Settings, w: World, actor: UserId, userId: UserId, edited: User, redis: bool)
    requires userId in w.core.users
    ensures var w' := ApplyUpdate(cfg, w, actor, userId, edited, redis).0;
            w'.grants == w.grants && (w'.cache == w.cache || w'.cache == w.cache - {userId})
  {
  }

  lemma UpdateKeepsGrants(cfg: Settings, w: World, r: Request)
    requires r.op.UpdateUserOp?
    ensures CacheFrom(cfg, w, Exec(cfg, w, r)) && Exec(cfg, w, r).grants == w.grants
  {
    var UpdateUserOp(actor, userId, input, newHash) := r.op;
    var asked := RequireAll(cfg, w, actor, PermissionsNeeded(input), r.redis).0;
    RequireAllFills(cfg, w, actor, PermissionsNeeded(input), r.redis);
    RequireAllIsAside(cfg, w, actor, PermissionsNeeded(input), r.redis);
    if UpdateUser(cfg, w, actor, userId, input, newHash, r.redis).1.Ok? {
      ApplyUpdateKeepsGrants(cfg, asked, actor, userId, Edited(asked.core.users[userId], input, newHash), r.redis);
    }
  }

  lemma ExecFillsCache(cfg: Settings, w: World, r: Request)
    requires Admissible(w, r.op)
    ensures CacheFrom(cfg, w, Exec(cfg, w, r))
  {
    if r.op.LoginOp? || r.op.RefreshOp? {
      LoginKeepsGrants(cfg, w, r);
    } else if r.op.UpdateUserOp? {
      UpdateKeepsGrants(cfg, w, r);
    }
  }

  predicate Catalogues(op: Op) {
    op.CreatePermissionOp? || op.DescribeOp? || op.DeletePermissionOp?
  }

  lemma CatalogueKeepsJoin(cfg: Settings, w: World, r: Request, userId: UserId)
    requires Catalogues(r.op) && w.grants.WellFormed()
    ensures Exec(cfg, w, r).grants.CodesOf(userId) == w.grants.CodesOf(userId)
  {
    match r.op
    case CreatePermissionOp(_, code, description) =>
      CreateKeepsCodes(w.grants, TrimSpace(code), TrimSpace(description), userId);
    case DescribeOp(_, id, description) => DescriptionKeepsCodes(w.grants, id, TrimSpace(description), userId);
    case DeletePermissionOp(_, id) =>
      if w.grants.CountAssignments(id) == 0 {
        DeleteUnassigned(w.grants, id, userId);
      }
  }

  lemma OthersKeepGrants(cfg: Settings, w: World, r: Request)
    requires Admissible(w, r.op) && !Assigns(r.op) && !Catalogues(r.op)
    ensures Exec(cfg, w, r).grants == w.grants
  {
    match r.op
    case LoginOp(_) => LoginKeepsGrants(cfg, w, r);
    case RefreshOp(_, _) => LoginKeepsGrants(cfg, w, r);
    case UpdateUserOp(_, _, _, _) => UpdateKeepsGrants(cfg, w, r);
    case _ =>
  }

  /** Only Grant and Revoke change what the join returns; the catalogue requests never do. */
  lemma JoinIsStable(cfg: Settings, w: World, r: Request, userId: UserId)
    requires Admissible(w, r.op) && w.grants.WellFormed() && !Assigns(r.op)
    ensures Exec(cfg, w, r).grants.CodesOf(userId) == w.grants.CodesOf(userId)
  {
    if Catalogues(r.op) {
      CatalogueKeepsJoin(cfg, w, r, userId);
    } else {
      OthersKeepGrants(cfg, w, r);
    }
  }

  lemma AssignmentKeepsTables(w: World, actor: UserId, userId: UserId, id: PermissionId, redis: bool)
    requires w.grants.WellFormed()
    ensures Grant(w, actor, userId, id, redis).0.grants.WellFormed()
    ensures Revoke(w, actor, userId, id, redis).0.grants.WellFormed()
  {
    TablesStayWellFormed(w.grants, userId, id, "", "");
  }

  lemma CreationKeepsTables(w: World, actor: UserId, code: string, text: string)
    requires w.grants.WellFormed()
    ensures CreatePermission(w, actor, code, text).0.grants.WellFormed()
  {
    TablesStayWellFormed(w.grants, 0, 0, TrimSpace(code), TrimSpace(text));
  }

  lemma DescriptionKeepsTables(w: World, actor: UserId, id: PermissionId, text: string)
    requires w.grants.WellFormed()
    ensures DescribePermission(w, actor, id, text).0.grants.WellFormed()
  {
    TablesStayWellFormed(w.grants, 0, id, "", TrimSpace(text));
  }

  lemma DeletionKeepsTables(w: World, actor: UserId, id: PermissionId)
    requires w.grants.WellFormed()
    ensures DeletePermission(w, actor, id).0.grants.WellFormed()
  {
    TablesStayWellFormed(w.grants, 0, id, "", "");
  }

  lemma ExecKeepsTables(cfg: Settings, w: World, r: Request)
    requires Admissible(w, r.op) && w.grants.WellFormed()
    ensures Exec(cfg, w, r).grants.WellFormed()
  {
    match r.op
    case GrantOp(actor, userId, id) => AssignmentKeepsTables(w, actor, userId, id, r.redis);
    case RevokeOp(actor, userId, id) => AssignmentKeepsTables(w, actor, userId, id, r.redis);
    case CreatePermissionOp(actor, code, text) => CreationKeepsTables(w, actor, code, text);
    case DescribeOp(actor, id, text) => DescriptionKeepsTables(w, actor, id, text);
    case DeletePermissionOp(actor, id) => DeletionKeepsTables(w, actor, id);
    case _ => OthersKeepGrants(cfg, w, r);
  }

  // ---- cache transparency ----

  /** Every cached set is what the join returns now. */
  ghost predicate Coherent(w: World) {
    forall u | u in w.cache :: w.cache[u].codes == w.grants.CodesOf(u)
  }

  lemma AssignmentKeepsCoherence(cfg: Settings, w: World, r: Request)
    requires Coherent(w) && Assigns(r.op) && r.redis
    ensures Coherent(Exec(cfg, w, r))
  {
    var op, w' := r.op, Exec(cfg, w, r);
    forall u | u in w'.cache
      ensures w'.cache[u].codes == w'.grants.CodesOf(u)
    {
      if w' != w {
        assert u != op.userId;
        if op.GrantOp? {
          GrantAddsOneCode(w.grants, op.userId, op.id, u);
        } else {
          RevokeShrinksCodes(w.grants, op.userId, op.id, u);
        }
      }
    }
  }

  lemma ExecKeepsCoherence(cfg: Settings, w: World, r: Request)
    requires Admissible(w, r.op) && w.grants.WellFormed() && Coherent(w)
    requires Assigns(r.op) ==> r.redis
    ensures Coherent(Exec(cfg, w, r))
  {
    if Assigns(r.op) {
      AssignmentKeepsCoherence(cfg, w, r);
    } else {
      ExecFillsCache(cfg, w, r);
      forall u | u in Exec(cfg, w, r).cache
        ensures Exec(cfg, w, r).cache[u].codes == Exec(cfg, w, r).grants.CodesOf(u)
      {
        JoinIsStable(cfg, w, r, u);
      }
    }
  }

  lemma {:induction false} TraceKeepsTables(cfg: Settings, ws: seq<World>, rs: seq<Request>, i: nat)
    requires Trace(cfg, ws, rs) && i < |ws|
    ensures ws[i].grants.WellFormed()
  {
    if i > 0 {
      TraceKeepsTables(cfg, ws, rs, i - 1);
      ExecKeepsTables(cfg, ws[i - 1], rs[i - 1]);
    }
  }

  lemma {:induction false} TraceIsCoherent(cfg: Settings, ws: seq<World>, rs: seq<Request>, i: nat)
    requires Trace(cfg, ws, rs) && i < |ws|
    requires forall j | 0 <= j < i && Assigns(rs[j].op) :: rs[j].redis
    ensures Coherent(ws[i])
  {
    if i > 0 {
      TraceIsCoherent(cfg, ws, rs, i - 1);
      TraceKeepsTables(cfg, ws, rs, i - 1);
      ExecKeepsCoherence(cfg, ws[i - 1], rs[i - 1]);
    }
  }

  /**
   As long as Redis answered during the grants and revocations so far, HasPermission answers in every state
   exactly as the matcher does on the live join, in whatever order the join lists its codes, whether or not
   Redis answers now.  The catalogue's deletions need no invalidation.
   */
  lemma CacheIsTransparent(cfg: Settings, ws: seq<World>, rs: seq<Request>, i: nat, userId: UserId,
                           code: string, redis: bool, join: seq<string>)
    requires Trace(cfg, ws, rs) && i < |ws|
    requires forall j | 0 <= j < i && Assigns(rs[j].op) :: rs[j].redis
    requires Elements(join) == ws[i].grants.CodesOf(userId)
    ensures HasPermission(cfg, ws[i], userId, code, redis).1 == MatchPermission(join, code)
  {
    TraceIsCoherent(cfg, ws, rs, i);
    MatchIsAuthorised(join, code);
  }

  // ---- bounded staleness, one request at a time ----

  /** Some state so far, at an instant no earlier than `since`, had exactly these codes in the join. */
  ghost predicate JoinedSince(ws: seq<World>, i: nat, userId: UserId, codes: set<string>, since: int)
    requires i < |ws|
  {
    exists h :: 0 <= h <= i && since <= ws[h].core.now <= ws[i].core.now && ws[h].grants.CodesOf(userId) == codes
  }

  /** A run as the cache sees it. */
  ghost predicate CacheTrace(cfg: Settings, ws: seq<World>) {
    && ws != [] && ws[0].cache == map[]
    && forall i | 0 <= i < |ws| - 1 :: CacheFrom(cfg, ws[i], ws[i + 1]) && ws[i].core.now <= ws[i + 1].core.now
  }

  lemma TraceIsCacheTrace(cfg: Settings, ws: seq<World>, rs: seq<Request>)
    requires Trace(cfg, ws, rs)
    ensures CacheTrace(cfg, ws)
  {
    forall i | 0 <= i < |ws| - 1
      ensures CacheFrom(cfg, ws[i], ws[i + 1]) && ws[i].core.now <= ws[i + 1].core.now
    {
      TraceKeepsInv(cfg, ws, rs, i);
      ExecFillsCache(cfg, ws[i], rs[i]);
      ClockAdvances(cfg, ws[i], rs[i]);
    }
  }

  lemma JoinedLater(cfg: Settings, ws: seq<World>, i: nat, userId: UserId, codes: set<string>, since: int)
    requires CacheTrace(cfg, ws) && i + 1 < |ws|
    requires JoinedSince(ws, i, userId, codes, since)
    ensures JoinedSince(ws, i + 1, userId, codes, since)
  {
    var h :| 0 <= h <= i && since <= ws[h].core.now <= ws[i].core.now && ws[h].grants.CodesOf(userId) == codes;
    assert ws[h].core.now <= ws[i + 1].core.now;
  }

  lemma {:induction false} EntriesWereJoined(cfg: Settings, ws: seq<World>, i: nat, userId: UserId)
    requires CacheTrace(cfg, ws) && i < |ws| && userId in ws[i].cache
    ensures JoinedSince(ws, i, userId, ws[i].cache[userId].codes, ws[i].cache[userId].deadline - cfg.permTTL)
  {
    var before, entry := ws[i - 1], ws[i].cache[userId];
    assert CacheFrom(cfg, before, ws[i]);
    if userId in before.cache && entry == before.cache[userId] {
      EntriesWereJoined(cfg, ws, i - 1, userId);
      JoinedLater(cfg, ws, i - 1, userId, entry.codes, entry.deadline - cfg.permTTL);
    } else {
      assert ws[i - 1].grants.CodesOf(userId) == entry.codes;
    }
  }

  /** The clock does not go back and nobody active is deactivated or removed. */
  ghost predicate UsersStay(w: World, w': World) {
    && w.core.now <= w'.core.now
    && forall u | u in w.core.users && w.core.users[u].active :: u in w'.core.users && w'.core.users[u].active
  }

  lemma ExecKeepsUsers(cfg: Settings, w: World, r: Request)
    requires Admissible(w, r.op) && !r.op.UpdateUserOp?
    requires forall u | u in w.core.users :: u <= w.lastUser
    ensures UsersStay(w, Exec(cfg, w, r))
  {
    if !r.op.CreateUserOp? {
      ExecKeepsAccounts(cfg, w, r);
    }
  }

  lemma ClockAdvances(cfg: Settings, w: World, r: Request)
    requires Admissible(w, r.op) && forall u | u in w.core.users :: u <= w.lastUser
    ensures w.core.now <= Exec(cfg, w, r).core.now
  {
    if r.op.UpdateUserOp? {
      RequireAllIsAside(cfg, w, r.op.actor, PermissionsNeeded(r.op.input), r.redis);
    } else {
      ExecKeepsUsers(cfg, w, r);
    }
  }

  /** Whichever invalidations were lost, all answers are those the join gave at one instant less than one TTL ago. */
  lemma AnswersAreRecent(cfg: Settings, ws: seq<World>, rs: seq<Request>, i: nat, userId: UserId, redis: bool)
    requires Trace(cfg, ws, rs) && i < |ws| && cfg.permTTL > 0
    ensures exists h :: 0 <= h <= i && ws[i].core.now - cfg.permTTL < ws[h].core.now <= ws[i].core.now
              && forall code ::
                   HasPermission(cfg, ws[i], userId, code, redis).1 == Authorised(ws[h].grants.CodesOf(userId), code)
  {
    var w := ws[i];
    if redis && Get(w.cache, userId, w.core.now).Some? {
      TraceIsCacheTrace(cfg, ws, rs);
      EntriesWereJoined(cfg, ws, i, userId);
      var since := w.cache[userId].deadline - cfg.permTTL;
      var h :| 0 <= h <= i && since <= ws[h].core.now <= w.core.now
          && ws[h].grants.CodesOf(userId) == w.cache[userId].codes;
      assert forall code ::
          HasPermission(cfg, w, userId, code, redis).1 == Authorised(ws[h].grants.CodesOf(userId), code);
    } else {
      assert forall code ::
          HasPermission(cfg, w, userId, code, redis).1 == Authorised(ws[i].grants.CodesOf(userId), code);
    }
  }

  // ---- authority comes from somebody ----

  ghost predicate Grantor(rs: seq<Request>, i: nat, userId: UserId)
    requires i <= |rs|
  {
    exists j :: 0 <= j < i && rs[j].op.GrantOp? && rs[j].op.actor == userId
  }

  /** A code a request newly gives a user comes from a grant by somebody authorised for it. */
  lemma NewCodesAreGranted(cfg: Settings, w: World, r: Request, userId: UserId, code: string)
    requires Admissible(w, r.op) && w.grants.WellFormed()
    requires code in Exec(cfg, w, r).grants.CodesOf(userId) && code !in w.grants.CodesOf(userId)
    ensures r.op.GrantOp? && r.op.userId == userId && Authorised(w.grants.CodesOf(r.op.actor), code)
  {
    if r.op.RevokeOp? {
      RevokeShrinksCodes(w.grants, r.op.userId, r.op.id, userId);
    } else if r.op.GrantOp? {
      if r.op.id in w.grants.perms {
        GrantAddsOneCode(w.grants, r.op.userId, r.op.id, userId);
      }
    } else {
      JoinIsStable(cfg, w, r, userId);
    }
  }

  /**
   The same conservation as NoAmplification, of requests: whatever a user is authorised for was authorised
   at the start of the run for that user or for some user who has since made a grant.
   */
  lemma {:induction false} RequestsDoNotAmplify(cfg: Settings, ws: seq<World>, rs: seq<Request>, i: nat,
                                                userId: UserId, required: string)
    returns (source: UserId)
    requires Trace(cfg, ws, rs) && i < |ws|
    requires Authorised(ws[i].grants.CodesOf(userId), required)
    ensures source == userId || Grantor(rs, i, source)
    ensures Authorised(ws[0].grants.CodesOf(source), required)
  {
    source := userId;
    if i > 0 {
      TraceKeepsTables(cfg, ws, rs, i - 1);
      source := SourceBefore(cfg, ws[i - 1], rs[i - 1], userId, required);
      source := RequestsDoNotAmplify(cfg, ws, rs, i - 1, source, required);
    }
  }

  /** One request back, the authority was the user's own or, if the request is a grant, its actor's. */
  lemma SourceBefore(cfg: Settings, w: World, r: Request, userId: UserId, required: string) returns (source: UserId)
    requires Admissible(w, r.op) && w.grants.WellFormed()
    requires Authorised(Exec(cfg, w, r).grants.CodesOf(userId), required)
    ensures source == userId || (r.op.GrantOp? && r.op.actor == source)
    ensures Authorised(w.grants.CodesOf(source), required)
  {
    source := userId;
    var held :| held in Exec(cfg, w, r).grants.CodesOf(userId) && Covers(held, required);
    if held !in w.grants.CodesOf(userId) {
      NewCodesAreGranted(cfg, w, r, userId, held);
      AuthorityIsTransitive(w.grants.CodesOf(r.op.actor), held, required);
      source := r.op.actor;
    }
  }

  // ---- the last administrator ----

  predicate Admin(w: World, userId: UserId) {
    userId in w.core.users && w.core.users[userId].active && "*" in w.grants.CodesOf(userId)
  }

  /** The request takes the code "*" away from somebody. */
  predicate RevokesStar(w: World, op: Op) {
    op.RevokeOp? && op.id in w.grants.perms && w.grants.perms[op.id].code == "*"
  }

  lemma HoldersAreAdmins(w: World, userId: UserId)
    ensures userId in w.grants.HoldersOf("*", w.core.users) <==> Admin(w, userId)
  {
    if Admin(w, userId) {
      var g :| g in w.grants.held && g.0 == userId && g.1 in w.grants.perms && w.grants.perms[g.1].code == "*";
    }
  }

  lemma SubsetOfSingleton(s: set<UserId>, x: UserId)
    requires s <= {x}
    ensures |s| <= 1
  {
    assert s == {} || s == {x};
  }

  lemma AnotherAdmin(w: World, userId: UserId) returns (other: UserId)
    requires |w.grants.HoldersOf("*", w.core.users)| > 1
    ensures Admin(w, other) && other != userId
  {
    var holders := w.grants.HoldersOf("*", w.core.users);
    assert !(holders <= {userId}) by {
      if holders <= {userId} {
        SubsetOfSingleton(holders, userId);
      }
    }
    other :| other in holders && other != userId;
    HoldersAreAdmins(w, other);
  }

  lemma StarStays(w: World, r: Request, cfg: Settings, userId: UserId)
    requires Admissible(w, r.op) && w.grants.WellFormed() && !RevokesStar(w, r.op)
    requires "*" in w.grants.CodesOf(userId)
    ensures "*" in Exec(cfg, w, r).grants.CodesOf(userId)
  {
    var g :| g in w.grants.held && g.0 == userId && g.1 in w.grants.perms && w.grants.perms[g.1].code == "*";
    if r.op.GrantOp? {
      if Exec(cfg, w, r) != w {
        GrantAddsOneCode(w.grants, r.op.userId, r.op.id, userId);
      }
    } else if r.op.RevokeOp? {
      if Exec(cfg, w, r) != w {
        var grants' := w.grants.Revoke(r.op.userId, r.op.id);
        assert g in grants'.held;
      }
    } else {
      JoinIsStable(cfg, w, r, userId);
    }
  }

  /** An update that is not refused either leaves this administrator active or leaves another one. */
  lemma ApplyUpdateKeepsAdmin(cfg: Settings, w: World, actor: UserId, userId: UserId, input: UserInput,
                              newHash: string, redis: bool, admin: UserId)
    returns (heir: UserId)
    requires userId in w.core.users && UpdateRefusal(cfg, w, userId, input).None? && Admin(w, admin)
    ensures Admin(ApplyUpdate(cfg, w, actor, userId, Edited(w.core.users[userId], input, newHash), redis).0, heir)
  {
    heir := admin;
    if userId == admin && input.active == Some(false) {
      heir := AnotherAdmin(w, admin);
    }
  }

  lemma UpdateKeepsAdmin(cfg: Settings, w: World, r: Request, admin: UserId) returns (heir: UserId)
    requires r.op.UpdateUserOp? && Admin(w, admin)
    ensures Admin(Exec(cfg, w, r), heir)
  {
    var UpdateUserOp(actor, userId, input, newHash) := r.op;
    var asked := RequireAll(cfg, w, actor, PermissionsNeeded(input), r.redis).0;
    RequireAllIsAside(cfg, w, actor, PermissionsNeeded(input), r.redis);
    heir := admin;
    if UpdateUser(cfg, w, actor, userId, input, newHash, r.redis).1.Ok? {
      heir := ApplyUpdateKeepsAdmin(cfg, asked, actor, userId, input, newHash, r.redis, admin);
    }
  }

  lemma ExecKeepsAdmin(cfg: Settings, w: World, r: Request, admin: UserId) returns (heir: UserId)
    requires Admissible(w, r.op) && SessionInv(cfg, w) && w.grants.WellFormed() && !RevokesStar(w, r.op)
    requires Admin(w, admin)
    ensures Admin(Exec(cfg, w, r), heir)
  {
    if r.op.UpdateUserOp? {
      heir := UpdateKeepsAdmin(cfg, w, r, admin);
    } else {
      heir := admin;
      StarStays(w, r, cfg, admin);
      ExecKeepsUsers(cfg, w, r);
    }
  }

  /** In runs that never revoke "*", once some active user holds it, some active user holds it in every later state. */
  lemma {:induction false} AdminNeverDisappears(cfg: Settings, ws: seq<World>, rs: seq<Request>, i: nat,
                                                j: nat, admin: UserId)
    returns (heir: UserId)
    requires Trace(cfg, ws, rs) && i <= j < |ws|
    requires forall n | i <= n < j :: !RevokesStar(ws[n], rs[n].op)
    requires Admin(ws[i], admin)
    ensures Admin(ws[j], heir)
  {
    if i == j {
      heir := admin;
    } else {
      var before := AdminNeverDisappears(cfg, ws, rs, i, j - 1, admin);
      TraceKeepsInv(cfg, ws, rs, j - 1);
      TraceKeepsTables(cfg, ws, rs, j - 1);
      heir := ExecKeepsAdmin(cfg, ws[j - 1], rs[j - 1], before);
    }
  }

  /**
   Seeding an empty system with a password makes an administrator, provided "*" is in the catalogue, and only
   then.
   */
  lemma SeededAdmin(cfg: Settings, w: World, email: string, password: string, passwordHash: string,
                    roleId: Option<nat>, userId: UserId)
    requires w.core.users == map[] && w.grants.held == {} && password != ""
    ensures var w' := SeedAdmin(cfg, w, email, password, passwordHash, roleId).0;
            Admin(w', userId) <==> userId == w.lastUser + 1 && w.grants.CodeTaken("*")
  {
    var w' := SeedAdmin(cfg, w, email, password, passwordHash, roleId).0;
    if w.grants.CodeTaken("*") {
      var p :| p in w.grants.perms && w.grants.perms[p].code == "*";
      assert (w.lastUser + 1, p) in w'.grants.held;
    }
  }
}
