/** Permission checks, grants and the catalogue, and the user updates that depend on them. */
module PermissionService {
  import opened Types
  import opened Matching
  import opened PermissionCache
  import opened Requests
  import opened Store

  class PermissionService {
    const store: Store

    constructor (store: Store)
      ensures this.store == store
    {
      this.store := store;
    }

    method HasPermission(userId: UserId, code: string, redis: bool) returns (allowed: bool)
      modifies store`cache
      ensures (store.World(), allowed) == Requests.HasPermission(store.cfg, old(store.World()), userId, code, redis)
    {
      var codes: seq<string>;
      if !redis {
        codes := store.ListCodesByUserID(userId);
      } else {
        var found := Get(store.cache, userId, store.now);
        if found.Some? {
          codes := Listed(found.value);
        } else {
          codes := store.ListCodesByUserID(userId);
          store.cache := Put(store.cache, userId, Elements(codes), store.now, store.cfg.permTTL);
        }
      }
      MatchIsAuthorised(codes, code);
      return MatchPermission(codes, code);
    }

    method ActorCanGrant(actor: UserId, code: string) returns (allowed: bool)
      ensures allowed == Authorised(store.grants.CodesOf(actor), code)
    {
      var codes := store.ListCodesByUserID(actor);
      MatchIsAuthorised(codes, code);
      return MatchPermission(codes, code);
    }

    method Grant(actor: UserId, userId: UserId, id: PermissionId, redis: bool) returns (r: Result<(), Error>)
      modifies store
      ensures (store.World(), r) == Requests.Grant(old(store.World()), actor, userId, id, redis)
    {
      if userId !in store.users {
        return Err(NotFound);
      }
      if id !in store.grants.perms {
        return Err(NotFound);
      }
      var allowed := ActorCanGrant(actor, store.grants.perms[id].code);
      if !allowed {
        return Err(Forbidden);
      }
      store.grants := store.grants.Grant(userId, id);
      store.InvalidateUserCache(userId, redis);
      store.Log(Some(actor), AssignmentChanged("granted", userId, id));
      return Ok(());
    }

    method Revoke(actor: UserId, userId: UserId, id: PermissionId, redis: bool) returns (r: Result<(), Error>)
      modifies store
      ensures (store.World(), r) == Requests.Revoke(old(store.World()), actor, userId, id, redis)
    {
      if userId !in store.users || id !in store.grants.perms {
        return Err(NotFound);
      }
      store.grants := store.grants.Revoke(userId, id);
      store.InvalidateUserCache(userId, redis);
      store.Log(Some(actor), AssignmentChanged("revoked", userId, id));
      return Ok(());
    }

    method Create(actor: UserId, input: string, description: string) returns (r: Result<PermissionId, Error>)
      modifies store
      ensures (store.World(), r) == CreatePermission(old(store.World()), actor, input, description)
    {
      var code := TrimSpace(input);
      if !ValidatePermissionCode(code) {
        return Err(InvalidPermissionCode);
      }
      if store.grants.CodeTaken(code) {
        return Err(PermissionCodeTaken);
      }
      store.grants := store.grants.Create(code, TrimSpace(description));
      store.Log(Some(actor), PermissionChanged("created", store.grants.lastId));
      return Ok(store.grants.lastId);
    }

    method UpdateDescription(actor: UserId, id: PermissionId, description: string) returns (r: Result<(), Error>)
      modifies store
      ensures (store.World(), r) == DescribePermission(old(store.World()), actor, id, description)
    {
      if id !in store.grants.perms {
        return Err(NotFound);
      }
      store.grants := store.grants.UpdateDescription(id, TrimSpace(description));
      store.Log(Some(actor), PermissionChanged("updated", id));
      return Ok(());
    }

    method Delete(actor: UserId, id: PermissionId) returns (r: Result<(), Error>)
      modifies store
      ensures (store.World(), r) == DeletePermission(old(store.World()), actor, id)
    {
      if id !in store.grants.perms {
        return Err(NotFound);
      }
      if IsProtectedPermissionCode(store.grants.perms[id].code) {
        return Err(ProtectedPermission);
      }
      var count := store.grants.CountAssignments(id);
      if count > 0 {
        return Err(PermissionInUse);
      }
      store.grants := store.grants.Delete(id);
      store.Log(Some(actor), PermissionChanged("deleted", id));
      return Ok(());
    }
  }

  class UserService {
    const store: Store
    const permissions: PermissionService

    constructor (store: Store, permissions: PermissionService)
      requires permissions.store == store
      ensures this.store == store && this.permissions == permissions
    {
      this.store, this.permissions := store, permissions;
    }

    method Create(actor: UserId, user: User, password: string) returns (r: Result<UserId, Error>)
      modifies store
      ensures (store.World(), r) == CreateUser(store.cfg, old(store.World()), actor, user, password)
    {
      if !store.cfg.emailOk(user.email) {
        return Err(InvalidEmail);
      }
      if !store.cfg.passwordOk(password, user.name, user.email) {
        return Err(InvalidPassword);
      }
      if FindByEmail(store.users, user.email, store.lastUser).Some? {
        return Err(EmailTaken);
      }
      store.lastUser := store.lastUser + 1;
      store.SaveUser(store.lastUser, user.(active := true));
      store.Log(Some(actor), UserChanged("created", store.lastUser));
      return Ok(store.lastUser);
    }

    /** The three permission checks at the top of Update. */
    method RequirePermissions(actor: UserId, input: UserInput, redis: bool) returns (allowed: bool)
      requires permissions.store == store
      modifies store`cache
      ensures (store.World(), allowed) ==
              RequireAll(store.cfg, old(store.World()), actor, PermissionsNeeded(input), redis)
    {
      ghost var w0 := store.World();
      var reset := if input.password.Some? then ["users.password.reset"] else [];
      var deactivate := if input.active.Some? then ["users.deactivate"] else [];
      if input.name.Some? || input.email.Some? || input.roleId.Some? {
        AskFirst(store.cfg, store.World(), actor, "users.update", reset + deactivate, redis);
        assert PermissionsNeeded(input) == ["users.update"] + (reset + deactivate);
        allowed := permissions.HasPermission(actor, "users.update", redis);
        if !allowed {
          return;
        }
      } else {
        assert PermissionsNeeded(input) == reset + deactivate;
      }
      if input.password.Some? {
        AskFirst(store.cfg, store.World(), actor, "users.password.reset", deactivate, redis);
        allowed := permissions.HasPermission(actor, "users.password.reset", redis);
        if !allowed {
          return;
        }
      } else {
        assert reset + deactivate == deactivate;
      }
      if input.active.Some? {
        AskFirst(store.cfg, store.World(), actor, "users.deactivate", [], redis);
        assert deactivate == ["users.deactivate"] + [];
        allowed := permissions.HasPermission(actor, "users.deactivate", redis);
        if !allowed {
          return;
        }
      }
      allowed := true;
    }

    method Update(actor: UserId, userId: UserId, input: UserInput, newHash: string, redis: bool)
      returns (r: Result<User, Error>)
      requires permissions.store == store
      modifies store
      ensures (store.World(), r) == UpdateUser(store.cfg, old(store.World()), actor, userId, input, newHash, redis)
    {
      if input.active == Some(false) && actor == userId {
        return Err(CannotDeactivateSelf);
      }
      var allowed := RequirePermissions(actor, input, redis);
      if !allowed {
        return Err(Forbidden);
      }
      if userId !in store.users {
        return Err(NotFound);
      }
      var user := store.users[userId];
      if input.active == Some(false) && user.active {
        var codes := store.ListCodesByUserID(userId);
        if "*" in Elements(codes) && |store.grants.HoldersOf("*", store.users)| <= 1 {
          return Err(LastAdmin);
        }
      }
      if input.email.Some? {
        if !store.cfg.emailOk(input.email.value) {
          return Err(InvalidEmail);
        }
        if input.email.value != user.email {
          var existing := FindByEmail(store.users, input.email.value, store.lastUser);
          if existing.Some? && existing.value != userId {
            return Err(EmailTaken);
          }
        }
      }
      var finalName, finalEmail := Or(input.name, user.name), Or(input.email, user.email);
      if input.password.Some? && !store.cfg.passwordOk(input.password.value, finalName, finalEmail) {
        return Err(InvalidPassword);
      }
      r := Save(actor, userId, user, input, newHash, redis);
    }

    /** The row, then for a deactivation the sessions and the cache. */
    method Save(actor: UserId, userId: UserId, user: User, input: UserInput, newHash: string, redis: bool)
      returns (r: Result<User, Error>)
      requires userId in store.users && store.users[userId] == user
      modifies store
      ensures (store.World(), r) ==
              ApplyUpdate(store.cfg, old(store.World()), actor, userId, Edited(user, input, newHash), redis)
    {
      var edited, deactivated, activated := EditFields(user, input, newHash);
      store.SaveUser(userId, edited);
      if deactivated {
        store.RevokeAllByUser(userId);
        store.InvalidateUserCache(userId, redis);
      }
      store.Log(Some(actor), UserChanged("updated", userId));
      if deactivated { store.Log(Some(actor), UserChanged("deactivated", userId)); }
      if activated { store.Log(Some(actor), UserChanged("activated", userId)); }
      return Ok(edited);
    }

    /** Field by field; the flags say which way the account was switched. */
    method EditFields(user: User, input: UserInput, newHash: string)
      returns (edited: User, deactivated: bool, activated: bool)
      ensures edited == Edited(user, input, newHash)
      ensures deactivated == (user.active && !edited.active) && activated == (!user.active && edited.active)
    {
      edited := user;
      if input.name.Some? { edited := edited.(name := input.name.value); }
      if input.email.Some? { edited := edited.(email := input.email.value); }
      if input.roleId.Some? { edited := edited.(roleId := input.roleId); }
      deactivated, activated := false, false;
      if input.active.Some? {
        deactivated := user.active && !input.active.value;
        activated := !user.active && input.active.value;
        edited := edited.(active := input.active.value);
      }
      if input.password.Some? { edited := edited.(passwordHash := newHash); }
    }
  }

  lemma AskFirst(cfg: Settings, w: World, actor: UserId, code: string, others: seq<string>, redis: bool)
    ensures var (asked, allowed) := Requests.HasPermission(cfg, w, actor, code, redis);
            RequireAll(cfg, w, actor, [code] + others, redis) ==
            if allowed then RequireAll(cfg, asked, actor, others, redis) else (asked, false)
  {
    assert ([code] + others)[1..] == others;
  }
}
