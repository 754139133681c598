/**
 Granting under interleaving: a Grant checks the actor's codes in one step and inserts the assignment in
 a later one, and grants, revocations and catalogue changes of all requests interleave between the two.
 */
module Authority {
  import opened Types
  import opened Matching
  import opened PermissionTable

  /**
   A Grant whose check has passed.  It stays `pending` after its insert, so that any number of equal grants may
   be in flight at once.
   */
  datatype Checked = Checked(actor: UserId, userId: UserId, id: PermissionId)

  datatype State = State(users: set<UserId>, db: Grants, pending: set<Checked>, grantors: set<UserId>)

  datatype Event =
    | AddUser(userId: UserId)
    | CheckGrant(actor: UserId, userId: UserId, id: PermissionId)
    | InsertGrant(checked: Checked)
    | RevokeGrant(userId: UserId, id: PermissionId)
    | CreatePermission(code: string, description: string)
    | Describe(id: PermissionId, description: string)
    | DeletePermission(id: PermissionId)

  ghost predicate Enabled(s: State, e: Event) {
    match e
    case AddUser(_) => true
    case CheckGrant(actor, u, id) =>
      u in s.users && id in s.db.perms && Authorised(s.db.CodesOf(actor), s.db.perms[id].code)
    case InsertGrant(checked) => checked in s.pending
    case RevokeGrant(_, _) => true
    case CreatePermission(code, _) => ValidatePermissionCode(code) && !s.db.CodeTaken(code)
    case Describe(_, _) => true
    case DeletePermission(id) => id in s.db.perms && !IsProtectedPermissionCode(s.db.perms[id].code)
  }

  /** An insert whose permission has meanwhile been deleted fails on its foreign key. */
  function Apply(s: State, e: Event): State {
    match e
    case AddUser(u) => s.(users := s.users + {u})
    case CheckGrant(actor, u, id) =>
      s.(pending := s.pending + {Checked(actor, u, id)}, grantors := s.grantors + {actor})
    case InsertGrant(checked) =>
      s.(db := if checked.id in s.db.perms then s.db.Grant(checked.userId, checked.id) else s.db)
    case RevokeGrant(u, id) => s.(db := s.db.Revoke(u, id))
    case CreatePermission(code, description) => s.(db := s.db.Create(code, description))
    case Describe(id, description) => s.(db := s.db.UpdateDescription(id, description))
    case DeletePermission(id) => s.(db := s.db.Delete(id))
  }

  ghost predicate Run(ss: seq<State>, es: seq<Event>) {
    && |ss| == |es| + 1
    && ss[0].db.WellFormed() && ss[0].pending == {} && ss[0].grantors == {}
    && forall i | 0 <= i < |es| :: Enabled(ss[i], es[i]) && ss[i + 1] == Apply(ss[i], es[i])
  }

  /** The start already authorised the user, or someone who has since acted as grantor, for the code. */
  ghost predicate Sourced(start: Grants, s: State, userId: UserId, code: string) {
    exists v :: (v == userId || v in s.grantors) && Authorised(start.CodesOf(v), code)
  }

  ghost predicate Inv(start: Grants, s: State) {
    && s.db.WellFormed()
    && (forall u, code | code in s.db.CodesOf(u) :: Sourced(start, s, u, code))
    && (forall c | c in s.pending :: c.id <= s.db.lastId)
    && (forall c | c in s.pending && c.id in s.db.perms :: SourcedByGrantor(start, s, s.db.perms[c.id].code))
  }

  ghost predicate SourcedByGrantor(start: Grants, s: State, code: string) {
    exists v :: v in s.grantors && Authorised(start.CodesOf(v), code)
  }

  lemma CheckKeepsInv(start: Grants, s: State, e: Event)
    requires Inv(start, s) && Enabled(s, e) && e.CheckGrant?
    ensures Inv(start, Apply(s, e))
  {
    var s' := Apply(s, e);
    var code := s.db.perms[e.id].code;
    var held :| held in s.db.CodesOf(e.actor) && Covers(held, code);
    var v :| (v == e.actor || v in s.grantors) && Authorised(start.CodesOf(v), held);
    AuthorityIsTransitive(start.CodesOf(v), held, code);
    assert SourcedByGrantor(start, s', code);
    forall u, c | c in s'.db.CodesOf(u)
      ensures Sourced(start, s', u, c)
    {
      assert Sourced(start, s, u, c);
    }
    forall c | c in s'.pending && c.id in s'.db.perms
      ensures SourcedByGrantor(start, s', s'.db.perms[c.id].code)
    {
      assert c in s.pending ==> SourcedByGrantor(start, s, s.db.perms[c.id].code);
    }
  }

  /** What every event but a check does to the codes users hold: at most one new one, of a checked grant. */
  lemma CodesAfter(s: State, e: Event, u: UserId, code: string)
    requires s.db.WellFormed() && !e.CheckGrant?
    requires code in Apply(s, e).db.CodesOf(u)
    ensures code in s.db.CodesOf(u)
         || (e.InsertGrant? && u == e.checked.userId && e.checked.id in s.db.perms
              && code == s.db.perms[e.checked.id].code)
  {
    match e
    case AddUser(_) =>
    case InsertGrant(c) => if c.id in s.db.perms { GrantAddsOneCode(s.db, c.userId, c.id, u); }
    case RevokeGrant(v, id) => RevokeShrinksCodes(s.db, v, id, u);
    case CreatePermission(c, d) => CreateKeepsCodes(s.db, c, d, u);
    case Describe(id, d) => DescriptionKeepsCodes(s.db, id, d, u);
    case DeletePermission(_) =>
  }

  lemma StepKeepsInv(start: Grants, s: State, e: Event)
    requires Inv(start, s) && Enabled(s, e)
    ensures Inv(start, Apply(s, e))
  {
    if e.CheckGrant? {
      CheckKeepsInv(start, s, e);
    } else {
      var s' := Apply(s, e);
      forall u, code | code in s'.db.CodesOf(u)
        ensures Sourced(start, s', u, code)
      {
        CodesAfter(s, e, u, code);
        assert code in s.db.CodesOf(u) ==> Sourced(start, s, u, code);
        if code !in s.db.CodesOf(u) {
          assert SourcedByGrantor(start, s, code);
        }
      }
      forall c | c in s'.pending && c.id in s'.db.perms
        ensures SourcedByGrantor(start, s', s'.db.perms[c.id].code)
      {
        assert SourcedByGrantor(start, s, s.db.perms[c.id].code);
      }
    }
  }

  lemma {:induction false} RunKeepsInv(ss: seq<State>, es: seq<Event>, i: nat)
    requires Run(ss, es) && i < |ss|
    ensures Inv(ss[0].db, ss[i])
  {
    if i == 0 {
      forall u, code | code in ss[0].db.CodesOf(u)
        ensures Sourced(ss[0].db, ss[0], u, code)
      {
        CoversIsReflexive(code);
        assert Authorised(ss[0].db.CodesOf(u), code);
      }
    } else {
      RunKeepsInv(ss, es, i - 1);
      StepKeepsInv(ss[0].db, ss[i - 1], es[i - 1]);
    }
  }

  /**
   No run amplifies authority: whatever a user is authorised for, at any point of any interleaving, was
   authorised at the start of the run for that user or for some user who acted as grantor in it.
   */
  lemma NoAmplification(ss: seq<State>, es: seq<Event>, i: nat, userId: UserId, required: string)
    requires Run(ss, es) && i < |ss|
    requires Authorised(ss[i].db.CodesOf(userId), required)
    ensures exists v :: (v == userId || v in ss[i].grantors) && Authorised(ss[0].db.CodesOf(v), required)
  {
    RunKeepsInv(ss, es, i);
    var held :| held in ss[i].db.CodesOf(userId) && Covers(held, required);
    var v :| (v == userId || v in ss[i].grantors) && Authorised(ss[0].db.CodesOf(v), held);
    AuthorityIsTransitive(ss[0].db.CodesOf(v), held, required);
  }
}
