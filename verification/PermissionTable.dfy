/** The permissions and user_permissions tables and the queries on them. */
module PermissionTable {
  import opened Types

  datatype Permission = Permission(code: string, description: string)

  datatype Grants = Grants(perms: map<PermissionId, Permission>, lastId: nat, held: set<(UserId, PermissionId)>)
  {
    /** Identity ids are handed out once; codes are unique; assignments reference existing permissions. */
    predicate WellFormed() {
      && (forall p | p in perms :: 1 <= p <= lastId)
      && (forall p, q | p in perms && q in perms && perms[p].code == perms[q].code :: p == q)
      && (forall g | g in held :: g.1 in perms)
    }

    /** The join of ListCodesByUserID. */
    function CodesOf(userId: UserId): set<string> {
      set g | g in held && g.0 == userId && g.1 in perms :: perms[g.1].code
    }

    predicate CodeTaken(code: string) {
      exists p :: p in perms && perms[p].code == code
    }

    function CountAssignments(id: PermissionId): nat {
      |set g | g in held && g.1 == id|
    }

    /** The user ids the join of CountActiveUsersWithCode counts; codes are unique, so each appears once. */
    function HoldersOf(code: string, users: map<UserId, User>): set<UserId> {
      set g | g in held && g.0 in users && users[g.0].active && g.1 in perms && perms[g.1].code == code :: g.0
    }

    function Grant(userId: UserId, id: PermissionId): Grants {
      this.(held := held + {(userId, id)})
    }

    function Revoke(userId: UserId, id: PermissionId): Grants {
      this.(held := held - {(userId, id)})
    }

    /** INSERT ... SELECT every permission for the user. */
    function GrantAll(userId: UserId): Grants {
      this.(held := held + set p | p in perms :: (userId, p))
    }

    function Create(code: string, description: string): Grants {
      this.(perms := perms[lastId + 1 := Permission(code, description)], lastId := lastId + 1)
    }

    function UpdateDescription(id: PermissionId, description: string): Grants {
      if id in perms then this.(perms := perms[id := perms[id].(description := description)]) else this
    }

    /** ON DELETE CASCADE takes the assignments of the permission with it. */
    function Delete(id: PermissionId): Grants {
      this.(perms := perms - {id}, held := set g | g in held && g.1 != id)
    }
  }

  lemma TablesStayWellFormed(db: Grants, userId: UserId, id: PermissionId, code: string, description: string)
    requires db.WellFormed()
    ensures id in db.perms ==> db.Grant(userId, id).WellFormed()
    ensures db.Revoke(userId, id).WellFormed()
    ensures !db.CodeTaken(code) ==> db.Create(code, description).WellFormed()
    ensures db.UpdateDescription(id, description).WellFormed()
    ensures db.Delete(id).WellFormed()
  {
  }

  lemma DeleteUnassigned(db: Grants, id: PermissionId, userId: UserId)
    requires db.CountAssignments(id) == 0
    ensures db.Delete(id).held == db.held
    ensures db.Delete(id).CodesOf(userId) == db.CodesOf(userId)
  {
    var uses := set g | g in db.held && g.1 == id;
    assert uses == {};
    forall g | g in db.held
      ensures g.1 != id
    {
      assert g !in uses;
    }
    assert db.Delete(id).held == db.held;
  }

  lemma CreateKeepsCodes(db: Grants, code: string, description: string, userId: UserId)
    requires db.WellFormed()
    ensures db.Create(code, description).CodesOf(userId) == db.CodesOf(userId)
  {
    var db' := db.Create(code, description);
    forall g | g in db.held
      ensures g.1 in db'.perms && db'.perms[g.1] == db.perms[g.1]
    {
    }
  }

  lemma DescriptionKeepsCodes(db: Grants, id: PermissionId, description: string, userId: UserId)
    ensures db.UpdateDescription(id, description).CodesOf(userId) == db.CodesOf(userId)
  {
    var db' := db.UpdateDescription(id, description);
    forall g | g in db.held && g.1 in db.perms
      ensures g.1 in db'.perms && db'.perms[g.1].code == db.perms[g.1].code
    {
    }
  }

  lemma RevokeShrinksCodes(db: Grants, userId: UserId, id: PermissionId, other: UserId)
    ensures db.Revoke(userId, id).CodesOf(other) <= db.CodesOf(other)
    ensures other != userId ==> db.Revoke(userId, id).CodesOf(other) == db.CodesOf(other)
  {
    var db' := db.Revoke(userId, id);
    if other != userId {
      forall g | g in db.held && g.0 == other
        ensures g in db'.held
      {
      }
    }
  }

  lemma GrantAddsOneCode(db: Grants, userId: UserId, id: PermissionId, other: UserId)
    requires id in db.perms
    ensures db.Grant(userId, id).CodesOf(other) ==
            if other == userId then db.CodesOf(other) + {db.perms[id].code} else db.CodesOf(other)
  {
    var db' := db.Grant(userId, id);
    assert (userId, id) in db'.held;
    forall g | g in db.held
      ensures g in db'.held
    {
    }
  }

  /** Revoking undoes granting, and deleting undoes creating but for the id, which is never handed out again. */
  lemma ChangesAreUndone(db: Grants, userId: UserId, id: PermissionId, code: string, description: string)
    requires db.WellFormed()
    ensures (userId, id) !in db.held ==> db.Grant(userId, id).Revoke(userId, id) == db
    ensures db.Create(code, description).Delete(db.lastId + 1) == db.(lastId := db.lastId + 1)
  {
    var created := db.Create(code, description);
    assert created.perms - {db.lastId + 1} == db.perms;
    assert forall g | g in db.held :: g.1 != db.lastId + 1;
    if (userId, id) !in db.held {
      assert db.Grant(userId, id).Revoke(userId, id).held == db.held;
    }
  }
}
