/**
 What user management promises over whole runs: unique emails, targeted updates, and when the last
 administrator can go.
 */
module UserRuns {
  import opened Types
  import opened PermissionTable
  import opened Requests
  import opened SessionRuns
  import opened SessionTheorems
  import opened PermissionRuns

  // ---- emails ----

  ghost predicate UniqueEmails(w: World) {
    forall u, v | u in w.core.users && v in w.core.users && w.core.users[u].email == w.core.users[v].email :: u == v
  }

  lemma CreateUserKeepsUnique(cfg: Settings, w: World, actor: UserId, user: User, password: string)
    requires UniqueEmails(w) && forall u | u in w.core.users :: u <= w.lastUser
    ensures UniqueEmails(CreateUser(cfg, w, actor, user, password).0)
  {
  }

  /** An email an update may set is nobody else's. */
  lemma AllowedEmailIsFree(cfg: Settings, w: World, userId: UserId, input: UserInput, other: UserId)
    requires UniqueEmails(w) && forall u | u in w.core.users :: u <= w.lastUser
    requires userId in w.core.users && UpdateRefusal(cfg, w, userId, input).None?
    requires other in w.core.users && w.core.users[other].email == Or(input.email, w.core.users[userId].email)
    ensures other == userId
  {
    var found := FindByEmail(w.core.users, Or(input.email, w.core.users[userId].email), w.lastUser);
    assert found.Some?;
  }

  lemma SavingKeepsUnique(w: World, w': World, userId: UserId, edited: User)
    requires UniqueEmails(w) && userId in w.core.users && w'.core.users == w.core.users[userId := edited]
    requires forall u | u in w.core.users && w.core.users[u].email == edited.email :: u == userId
    ensures UniqueEmails(w')
  {
  }

  lemma ApplyUpdateKeepsUnique(cfg: Settings, w: World, actor: UserId, userId: UserId, input: UserInput,
                               newHash: string, redis: bool)
    requires UniqueEmails(w) && forall u | u in w.core.users :: u <= w.lastUser
    requires userId in w.core.users && UpdateRefusal(cfg, w, userId, input).None?
    ensures UniqueEmails(ApplyUpdate(cfg, w, actor, userId, Edited(w.core.users[userId], input, newHash), redis).0)
  {
    var edited := Edited(w.core.users[userId], input, newHash);
    forall u | u in w.core.users && w.core.users[u].email == edited.email
      ensures u == userId
    {
      AllowedEmailIsFree(cfg, w, userId, input, u);
    }
    UpdateSweeps(cfg, w, actor, userId, edited, redis, userId);
    SavingKeepsUnique(w, ApplyUpdate(cfg, w, actor, userId, edited, redis).0, userId, edited);
  }

  lemma AccountsKeepUnique(w: World, w': World)
    requires UniqueEmails(w) && AccountsKept(w, w')
    ensures UniqueEmails(w')
  {
  }

  lemma UpdateKeepsUnique(cfg: Settings, w: World, r: Request)
    requires r.op.UpdateUserOp? && UniqueEmails(w) && forall u | u in w.core.users :: u <= w.lastUser
    ensures UniqueEmails(Exec(cfg, w, r))
  {
    var UpdateUserOp(actor, userId, input, newHash) := r.op;
    var asked := RequireAll(cfg, w, actor, PermissionsNeeded(input), r.redis).0;
    RequireAllIsAside(cfg, w, actor, PermissionsNeeded(input), r.redis);
    if UpdateUser(cfg, w, actor, userId, input, newHash, r.redis).1.Ok? {
      ApplyUpdateKeepsUnique(cfg, asked, actor, userId, input, newHash, r.redis);
    }
  }

  lemma ExecKeepsUnique(cfg: Settings, w: World, r: Request)
    requires Admissible(w, r.op) && UniqueEmails(w) && forall u | u in w.core.users :: u <= w.lastUser
    ensures UniqueEmails(Exec(cfg, w, r))
  {
    if r.op.CreateUserOp? {
      CreateUserKeepsUnique(cfg, w, r.op.actor, r.op.user, r.op.password);
    } else if r.op.UpdateUserOp? {
      UpdateKeepsUnique(cfg, w, r);
    } else {
      ExecKeepsAccounts(cfg, w, r);
      AccountsKeepUnique(w, Exec(cfg, w, r));
    }
  }

  /** The checks in Create and Update keep emails unique over every run, so a login's email names at most one user. */
  lemma {:induction false} EmailsStayUnique(cfg: Settings, ws: seq<World>, rs: seq<Request>, i: nat,
                                            email: string, userId: UserId)
    requires Trace(cfg, ws, rs) && i < |ws| && UniqueEmails(ws[0])
    ensures UniqueEmails(ws[i])
    ensures FindByEmail(ws[i].core.users, email, ws[i].lastUser) == Some(userId) <==>
            userId in ws[i].core.users && ws[i].core.users[userId].email == email
  {
    if i > 0 {
      EmailsStayUnique(cfg, ws, rs, i - 1, email, userId);
      TraceKeepsInv(cfg, ws, rs, i - 1);
      ExecKeepsUnique(cfg, ws[i - 1], rs[i - 1]);
    }
    TraceKeepsInv(cfg, ws, rs, i);
  }

  // ---- what an update reaches ----

  /** The actor has, when the update begins, every permission it needs. */
  predicate MayUpdate(cfg: Settings, w: World, actor: UserId, input: UserInput, redis: bool) {
    && (input.name.Some? || input.email.Some? || input.roleId.Some? ==>
          HasPermission(cfg, w, actor, "users.update", redis).1)
    && (input.password.Some? ==> HasPermission(cfg, w, actor, "users.password.reset", redis).1)
    && (input.active.Some? ==> HasPermission(cfg, w, actor, "users.deactivate", redis).1)
  }

  lemma AllNeededAreAsked(cfg: Settings, w: World, actor: UserId, input: UserInput, redis: bool)
    ensures RequireAll(cfg, w, actor, PermissionsNeeded(input), redis).1 <==> MayUpdate(cfg, w, actor, input, redis)
  {
    AllAreAsked(cfg, w, actor, PermissionsNeeded(input), redis);
    var needed := PermissionsNeeded(input);
    assert "users.update" in needed <==> input.name.Some? || input.email.Some? || input.roleId.Some?;
    assert "users.password.reset" in needed <==> input.password.Some?;
    assert "users.deactivate" in needed <==> input.active.Some?;
    assert forall code | code in needed :: code in {"users.update", "users.password.reset", "users.deactivate"};
  }

  /** A question leaves the answers to all others as they were, whether or not it fills the cache. */
  lemma AskingChangesNothing(cfg: Settings, w: World, actor: UserId, first: string, code: string, redis: bool)
    ensures HasPermission(cfg, HasPermission(cfg, w, actor, first, redis).0, actor, code, redis).1
            == HasPermission(cfg, w, actor, code, redis).1
  {
  }

  /** Asked one after another, all permissions are granted exactly if each is at the start. */
  lemma {:induction false} AllAreAsked(cfg: Settings, w: World, actor: UserId, codes: seq<string>, redis: bool)
    ensures RequireAll(cfg, w, actor, codes, redis).1 <==> forall code | code in codes ::
              HasPermission(cfg, w, actor, code, redis).1
    decreases |codes|
  {
    if codes != [] {
      var (asked, allowed) := HasPermission(cfg, w, actor, codes[0], redis);
      if allowed {
        AllAreAsked(cfg, asked, actor, codes[1..], redis);
        forall code
          ensures HasPermission(cfg, asked, actor, code, redis).1 == HasPermission(cfg, w, actor, code, redis).1
        {
          AskingChangesNothing(cfg, w, actor, codes[0], code, redis);
        }
      }
    }
  }

  /**
   A successful update was allowed, and one that is not allowed, unless it is refused for deactivating oneself,
   is Forbidden.  Success changes one user, in the fields given and no others; it closes all of that user's
   sessions exactly when it deactivates an active account, and nobody else's.  A refused one changes nothing
   but cached permission sets.
   */
  lemma UpdateIsTargeted(cfg: Settings, w: World, actor: UserId, userId: UserId, input: UserInput,
                         newHash: string, redis: bool, other: UserId)
    ensures var (w', r) := UpdateUser(cfg, w, actor, userId, input, newHash, redis);
            && (r == Err(Forbidden) <==>
                  !(input.active == Some(false) && actor == userId) && !MayUpdate(cfg, w, actor, input, redis))
            && (r.Ok? ==> MayUpdate(cfg, w, actor, input, redis))
            && (r.Err? ==> w'.core == w.core && w'.grants == w.grants && w'.audit == w.audit)
            && (r.Ok? ==>
                  && userId in w.core.users && userId in w'.core.users
                  && var (before, after) := (w.core.users[userId], w'.core.users[userId]);
                     && after == r.value
                     && after.name == (if input.name.Some? then input.name.value else before.name)
                     && after.email == (if input.email.Some? then input.email.value else before.email)
                     && after.active == (if input.active.Some? then input.active.value else before.active)
                     && after.roleId == (if input.roleId.Some? then input.roleId else before.roleId)
                     && after.passwordHash == (if input.password.Some? then newHash else before.passwordHash)
                     && w'.core.users == w.core.users[userId := after]
                     && w'.grants == w.grants
                     && (before.active && !after.active && redis ==> userId !in w'.cache)
                     && w'.audit == w.audit + UpdateEntries(w.core.now, actor, userId, before.active, after.active)
                     && OpenSessions(w', other) ==
                        if other == userId && before.active && !after.active then {} else OpenSessions(w, other))
  {
    var asked := RequireAll(cfg, w, actor, PermissionsNeeded(input), redis).0;
    RequireAllIsAside(cfg, w, actor, PermissionsNeeded(input), redis);
    AllNeededAreAsked(cfg, w, actor, input, redis);
    if UpdateUser(cfg, w, actor, userId, input, newHash, redis).1.Ok? {
      UpdateSweeps(cfg, asked, actor, userId, Edited(asked.core.users[userId], input, newHash), redis, other);
    }
  }

  /** An update is logged, and once more if it switches the account off or on. */
  function UpdateEntries(now: Time, actor: UserId, userId: UserId, before: bool, after: bool): seq<AuditEntry> {
    [AuditEntry(now, Some(actor), UserChanged("updated", userId))]
    + (if before && !after then [AuditEntry(now, Some(actor), UserChanged("deactivated", userId))]
       else if !before && after then [AuditEntry(now, Some(actor), UserChanged("activated", userId))]
       else [])
  }

  lemma UpdateSweeps(cfg: Settings, w: World, actor: UserId, userId: UserId, edited: User, redis: bool, other: UserId)
    requires userId in w.core.users
    ensures var before, w' := w.core.users[userId], ApplyUpdate(cfg, w, actor, userId, edited, redis).0;
            && w'.core.users == w.core.users[userId := edited] && w'.grants == w.grants
            && (before.active && !edited.active && redis ==> userId !in w'.cache)
            && w'.audit == w.audit + UpdateEntries(w.core.now, actor, userId, before.active, edited.active)
            && OpenSessions(w', other) ==
               if other == userId && before.active && !edited.active then {} else OpenSessions(w, other)
  {
    SettleSweeps(cfg, w, userId, edited, redis, other);
    var settled := Settle(cfg, w, userId, edited, redis);
    var w' := ApplyUpdate(cfg, w, actor, userId, edited, redis).0;
    assert w' == settled.(audit := w'.audit);
  }

  lemma SettleSweeps(cfg: Settings, w: World, userId: UserId, edited: User, redis: bool, other: UserId)
    requires userId in w.core.users
    ensures var before, w' := w.core.users[userId], Settle(cfg, w, userId, edited, redis);
            && w'.core.users == w.core.users[userId := edited] && w'.grants == w.grants && w'.audit == w.audit
            && w'.core.now == w.core.now
            && (before.active && !edited.active && redis ==> userId !in w'.cache)
            && OpenSessions(w', other) ==
               if other == userId && before.active && !edited.active then {} else OpenSessions(w, other)
  {
  }

  // ---- revoking "*" ----

  /**
   Only deactivation guards the last administrator.  A revocation of "*" leaves an administrator exactly when
   somebody other than the user it is taken from is one.
   */
  lemma RevokingStarLeavesOthers(cfg: Settings, w: World, r: Request)
    requires Admissible(w, r.op) && w.grants.WellFormed() && RevokesStar(w, r.op)
    ensures (exists a :: Admin(Exec(cfg, w, r), a)) <==> (exists a :: Admin(w, a) && a != r.op.userId)
  {
    var w' := Exec(cfg, w, r);
    forall a
      ensures Admin(w', a) <==> Admin(w, a) && a != r.op.userId
    {
      RevokeShrinksCodes(w.grants, r.op.userId, r.op.id, a);
      if a == r.op.userId && a in w.core.users {
        assert "*" !in w'.grants.CodesOf(a);
      }
    }
  }

  /** So the revocation the service accepts can leave a system without any administrator. */
  lemma LastAdminCanLoseStar(cfg: Settings, w: World, actor: UserId, admin: UserId, id: PermissionId)
    requires w.grants.WellFormed() && id in w.grants.perms && w.grants.perms[id].code == "*"
    requires Admin(w, admin) && forall a | Admin(w, a) :: a == admin
    ensures Revoke(w, actor, admin, id, true).1.Ok?
    ensures forall a :: !Admin(Revoke(w, actor, admin, id, true).0, a)
  {
    var r := Request(RevokeOp(actor, admin, id), true);
    assert RevokesStar(w, r.op);
    RevokingStarLeavesOthers(cfg, w, r);
    assert Exec(cfg, w, r) == Revoke(w, actor, admin, id, true).0;
  }

  // ---- when an update, a creation and the seeding succeed ----

  /** The update would switch off the only active holder of "*". */
  ghost predicate SwitchesLastAdminOff(w: World, userId: UserId, input: UserInput) {
    input.active == Some(false) && Admin(w, userId) && forall a | Admin(w, a) :: a == userId
  }

  lemma OnlyAdmin(w: World, userId: UserId)
    requires Admin(w, userId)
    ensures |w.grants.HoldersOf("*", w.core.users)| <= 1 <==> forall a | Admin(w, a) :: a == userId
  {
    var holders := w.grants.HoldersOf("*", w.core.users);
    forall a
      ensures a in holders <==> Admin(w, a)
    {
      HoldersAreAdmins(w, a);
    }
    if |holders| > 1 {
      var other := AnotherAdmin(w, userId);
    } else {
      forall a | Admin(w, a)
        ensures a == userId
      {
        TwoMembers(holders, a, userId);
      }
    }
  }

  lemma TwoMembers(s: set<UserId>, a: UserId, b: UserId)
    requires a in s && b in s && |s| <= 1
    ensures a == b
  {
    assert |s - {a}| == |s| - 1;
  }

  ghost predicate EmailTakenByOther(w: World, email: string, userId: UserId) {
    exists u :: u in w.core.users && u != userId && w.core.users[u].email == email
  }

  /** What stands in the way of an update the actor may make, in the order in which it is reported. */
  ghost function Obstacle(cfg: Settings, w: World, userId: UserId, input: UserInput): Option<Error> {
    if userId !in w.core.users then Some(NotFound)
    else
      var name := if input.name.Some? then input.name.value else w.core.users[userId].name;
      var email := if input.email.Some? then input.email.value else w.core.users[userId].email;
      if SwitchesLastAdminOff(w, userId, input) then Some(LastAdmin)
      else if input.email.Some? && !cfg.emailOk(email) then Some(InvalidEmail)
      else if input.email.Some? && EmailTakenByOther(w, email, userId) then Some(EmailTaken)
      else if input.password.Some? && !cfg.passwordOk(input.password.value, name, email) then Some(InvalidPassword)
      else None
  }

  /**
   An update is refused for deactivating its own actor, for a missing permission, or for the obstacle in its
   way; and succeeds if and only if there is none of these.
   */
  lemma UpdateOutcome(cfg: Settings, w: World, actor: UserId, userId: UserId, input: UserInput, newHash: string,
                      redis: bool)
    requires UniqueEmails(w) && forall u | u in w.core.users :: u <= w.lastUser
    ensures var r := UpdateUser(cfg, w, actor, userId, input, newHash, redis).1;
            var itself := input.active == Some(false) && actor == userId;
            var allowed := MayUpdate(cfg, w, actor, input, redis);
            var obstacle := Obstacle(cfg, w, userId, input);
            && (itself ==> r == Err(CannotDeactivateSelf))
            && (!itself && !allowed ==> r == Err(Forbidden))
            && (!itself && allowed && obstacle.Some? ==> r == Err(obstacle.value))
            && (!itself && allowed && obstacle.None? ==> r.Ok?)
  {
    var asked := RequireAll(cfg, w, actor, PermissionsNeeded(input), redis).0;
    RequireAllIsAside(cfg, w, actor, PermissionsNeeded(input), redis);
    AllNeededAreAsked(cfg, w, actor, input, redis);
    if userId in w.core.users {
      RefusalIsObstacle(cfg, w, userId, input);
      RefusalIgnoresCache(cfg, w, asked, userId, input);
    }
  }

  lemma RefusalIgnoresCache(cfg: Settings, w: World, asked: World, userId: UserId, input: UserInput)
    requires userId in w.core.users && asked == w.(cache := asked.cache)
    ensures UpdateRefusal(cfg, asked, userId, input) == UpdateRefusal(cfg, w, userId, input)
  {
  }

  lemma RefusalIsObstacle(cfg: Settings, w: World, userId: UserId, input: UserInput)
    requires UniqueEmails(w) && forall u | u in w.core.users :: u <= w.lastUser
    requires userId in w.core.users
    ensures UpdateRefusal(cfg, w, userId, input) == Obstacle(cfg, w, userId, input)
  {
    if Admin(w, userId) {
      OnlyAdmin(w, userId);
    }
    if input.email.Some? {
      TakenByOther(w, input.email.value, userId);
    }
  }

  lemma TakenByOther(w: World, email: string, userId: UserId)
    requires UniqueEmails(w) && forall u | u in w.core.users :: u <= w.lastUser
    requires userId in w.core.users
    ensures var found := FindByEmail(w.core.users, email, w.lastUser);
            EmailTakenByOther(w, email, userId) <==>
            email != w.core.users[userId].email && found.Some? && found != Some(userId)
  {
    var found := FindByEmail(w.core.users, email, w.lastUser);
    if EmailTakenByOther(w, email, userId) {
      var u :| u in w.core.users && u != userId && w.core.users[u].email == email;
      assert found == Some(u);
    }
  }

  /**
   A user is created if and only if the email and the password are acceptable and nobody has the email; it gets
   an id nobody has had and exactly the account given, active.
   */
  lemma CreateUserOutcome(cfg: Settings, w: World, actor: UserId, user: User, password: string)
    requires forall u | u in w.core.users :: u <= w.lastUser
    ensures var (w', r) := CreateUser(cfg, w, actor, user, password);
            var taken := exists u :: u in w.core.users && w.core.users[u].email == user.email;
            && (r.Ok? <==> cfg.emailOk(user.email) && cfg.passwordOk(password, user.name, user.email) && !taken)
            && (r == Err(InvalidEmail) <==> !cfg.emailOk(user.email))
            && (r == Err(InvalidPassword) <==>
                  cfg.emailOk(user.email) && !cfg.passwordOk(password, user.name, user.email))
            && (r.Err? ==> w' == w)
            && (r.Ok? ==>
                  && r.value !in w.core.users
                  && w'.core.users ==
                     w.core.users[r.value := User(user.name, user.email, user.passwordHash, user.roleId, true)]
                  && w'.core.rows == w.core.rows && w'.grants == w.grants && w'.cache == w.cache
                  && w'.audit == w.audit + [AuditEntry(w.core.now, Some(actor), UserChanged("created", r.value))])
  {
    var found := FindByEmail(w.core.users, user.email, w.lastUser);
  }

  /**
   Seeding does nothing to a system with users and fails without a password; otherwise it stores the one user,
   active, with the email, hash and role given, who then holds every code of the catalogue.
   */
  lemma SeedOutcome(cfg: Settings, w: World, email: string, password: string, passwordHash: string,
                    roleId: Option<nat>)
    ensures var (w', r) := SeedAdmin(cfg, w, email, password, passwordHash, roleId);
            && (r.Ok? <==> w.core.users != map[] || password != "")
            && (w.core.users != map[] || password == "" ==> w' == w)
            && (w.core.users == map[] && password != "" ==>
                  exists id ::
                    && w'.core.users == map[id := User("Administrador", email, passwordHash, roleId, true)]
                    && w'.grants.CodesOf(id) ==
                       w.grants.CodesOf(id) + (set p | p in w.grants.perms :: w.grants.perms[p].code)
                    && w'.grants.perms == w.grants.perms && w'.core.rows == w.core.rows)
  {
    if w.core.users == map[] && password != "" {
      var id, w' := w.lastUser + 1, SeedAdmin(cfg, w, email, password, passwordHash, roleId).0;
      forall p | p in w.grants.perms
        ensures (id, p) in w'.grants.held
      {
      }
      assert w'.grants.CodesOf(id) ==
             w.grants.CodesOf(id) + (set p | p in w.grants.perms :: w.grants.perms[p].code);
    }
  }
}
