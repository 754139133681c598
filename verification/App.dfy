/** What the application does on its own: the hourly session cleanup and the first administrator. */
module App {
  import opened Types
  import opened SessionTable
  import opened Requests
  import opened Store

  class App {
    const store: Store

    constructor (store: Store)
      ensures this.store == store
    {
      this.store := store;
    }

    /** One audit entry for every row the cleanup listed. */
    method CleanupSessions()
      modifies store
      ensures store.World() == Requests.CleanupSessions(store.cfg, old(store.World()))
    {
      var _, expired := store.DeleteExpired();
      LogExpired(expired);
    }

    method LogExpired(expired: seq<(SessionId, Session)>)
      modifies store`audit
      ensures store.World() == old(store.World()).(audit := old(store.audit) + EntriesFor(expired, store.now))
    {
      for i := 0 to |expired|
        invariant store.audit == old(store.audit) + EntriesFor(expired[..i], store.now)
      {
        var (sid, session) := expired[i];
        EntriesForNext(expired, i, store.now);
        store.Log(Some(session.userId), SessionExpired(sid));
      }
      assert expired[..|expired|] == expired;
    }

    /** Runs before any request is served; does nothing once there is a user. */
    method SeedAdmin(email: string, password: string, passwordHash: string, roleId: Option<nat>)
      returns (r: Result<(), Error>)
      modifies store
      ensures (store.World(), r) ==
              Requests.SeedAdmin(store.cfg, old(store.World()), email, password, passwordHash, roleId)
    {
      if |store.users| > 0 {
        return Ok(());
      }
      if password == "" {
        return Err(InvalidPassword);
      }
      store.lastUser := store.lastUser + 1;
      store.SaveUser(store.lastUser, User("Administrador", email, passwordHash, roleId, true));
      store.grants := store.grants.GrantAll(store.lastUser);
      return Ok(());
    }
  }
}
