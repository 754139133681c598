/** Exactly when grants, revocations and catalogue requests succeed, what each refusal is, and what each changes. */
module PermissionOutcomes {
  import opened Types
  import opened Matching
  import opened PermissionTable
  import opened PermissionCache
  import opened Requests

  /** The request was refused and nothing happened. */
  predicate Untouched<T>(w: World, w': World, r: Result<T, Error>, error: Error) {
    r == Err(error) && w' == w
  }

  /** Only one user's cached codes are dropped, if Redis answers. */
  predicate Dropped(w: World, w': World, userId: UserId, redis: bool) {
    w'.cache == if redis then w.cache - {userId} else w.cache
  }

  /**
   A grant succeeds if and only if the user and the permission exist and some code the actor holds covers the
   permission's; it gives that code to that user, and nobody anything else.
   */
  lemma GrantOutcome(w: World, actor: UserId, userId: UserId, id: PermissionId, redis: bool, other: UserId)
    ensures var (w', r) := Grant(w, actor, userId, id, redis);
            var exist := userId in w.core.users && id in w.grants.perms;
            && (r.Ok? <==>
                  exist && exists held :: held in w.grants.CodesOf(actor) && Covers(held, w.grants.perms[id].code))
            && (!exist ==> Untouched(w, w', r, NotFound))
            && (exist && !r.Ok? ==> Untouched(w, w', r, Forbidden))
            && (r.Ok? ==>
                  && w'.grants.held == w.grants.held + {(userId, id)} && w'.grants.perms == w.grants.perms
                  && w'.grants.CodesOf(other) ==
                     w.grants.CodesOf(other) + (if other == userId then {w.grants.perms[id].code} else {})
                  && w'.core == w.core && Dropped(w, w', userId, redis)
                  && w'.audit == w.audit + [AuditEntry(w.core.now, Some(actor), AssignmentChanged("granted",
                       userId, id))])
  {
    if id in w.grants.perms {
      GrantAddsOneCode(w.grants, userId, id, other);
    }
  }

  /**
   A revocation succeeds if and only if the user and the permission exist, whether or not the user holds it; it
   takes that code from that user, and nobody anything else.
   */
  lemma RevokeOutcome(w: World, actor: UserId, userId: UserId, id: PermissionId, redis: bool, other: UserId)
    requires w.grants.WellFormed()
    ensures var (w', r) := Revoke(w, actor, userId, id, redis);
            && (r.Ok? <==> userId in w.core.users && id in w.grants.perms)
            && (!r.Ok? ==> Untouched(w, w', r, NotFound))
            && (r.Ok? ==>
                  && w'.grants.held == w.grants.held - {(userId, id)} && w'.grants.perms == w.grants.perms
                  && w'.grants.CodesOf(other) ==
                     w.grants.CodesOf(other) - (if other == userId then {w.grants.perms[id].code} else {})
                  && w'.core == w.core && Dropped(w, w', userId, redis)
                  && w'.audit == w.audit + [AuditEntry(w.core.now, Some(actor), AssignmentChanged("revoked",
                       userId, id))])
  {
    if id in w.grants.perms {
      RevokeTakesOneCode(w.grants, userId, id, other);
    }
  }

  lemma RevokeTakesOneCode(db: Grants, userId: UserId, id: PermissionId, other: UserId)
    requires db.WellFormed() && id in db.perms
    ensures db.Revoke(userId, id).CodesOf(other) ==
            db.CodesOf(other) - (if other == userId then {db.perms[id].code} else {})
  {
    var db' := db.Revoke(userId, id);
    forall g | g in db.held && g != (userId, id)
      ensures g in db'.held
    {
    }
  }

  // ---- the catalogue ----

  /** The catalogue accepts exactly the codes of the documented shape that do not end in ".manage". */
  lemma AcceptedCodes(code: string)
    ensures ValidatePermissionCode(code) <==> MatchesPattern(code) && !HasSuffix(code, ".manage")
  {
    PatternIsScanned(code);
    if ScanPattern(code, AtWordStart(0)) {
      ScanRejectsStar(code, AtWordStart(0));
    }
    assert '*' in "*" && '*' == "users.*"[6];
  }

  predicate IsBlank(c: char) {
    c as int == 32 || 9 <= c as int <= 13
  }

  predicate AllBlank(s: string) {
    forall i | 0 <= i < |s| :: IsBlank(s[i])
  }

  /** The text with the blanks cut off both ends, and nothing more. */
  ghost predicate IsTrimmed(s: string, trimmed: string) {
    && (exists front, back :: AllBlank(front) && AllBlank(back) && s == front + trimmed + back)
    && (trimmed != "" ==> !IsBlank(trimmed[0]) && !IsBlank(trimmed[|trimmed| - 1]))
  }

  lemma {:induction false} TrimCutsBlanks(s: string) returns (front: string, back: string)
    ensures AllBlank(front) && AllBlank(back) && s == front + TrimSpace(s) + back
    ensures var t := TrimSpace(s); t != "" ==> !IsBlank(t[0]) && !IsBlank(t[|t| - 1])
  {
    front, back := "", "";
    if s != [] && IsSpace(s[0]) {
      front, back := TrimCutsBlanks(s[1..]);
      OneMoreBlank(s[0], front, back, TrimSpace(s));
      front := [s[0]] + front;
    } else if s != [] && IsSpace(s[|s| - 1]) {
      front, back := TrimCutsBlanks(s[..|s| - 1]);
      OneLastBlank(front, back, s[|s| - 1], TrimSpace(s));
      back := back + [s[|s| - 1]];
    }
  }

  lemma OneMoreBlank(c: char, front: string, back: string, trimmed: string)
    requires IsBlank(c) && AllBlank(front)
    ensures AllBlank([c] + front) && [c] + (front + trimmed + back) == [c] + front + trimmed + back
  {
  }

  lemma OneLastBlank(front: string, back: string, c: char, trimmed: string)
    requires IsBlank(c) && AllBlank(back)
    ensures AllBlank(back + [c]) && front + trimmed + back + [c] == front + trimmed + (back + [c])
  {
  }

  lemma TrimIsExact(s: string)
    ensures IsTrimmed(s, TrimSpace(s))
  {
    var front, back := TrimCutsBlanks(s);
  }

  /**
   A permission is created if and only if its trimmed code has the documented shape, does not end in ".manage"
   and is not taken; it gets an id nobody has had, and the trimmed description.
   */
  lemma CreateOutcome(w: World, actor: UserId, input: string, description: string)
    requires w.grants.WellFormed()
    ensures var (w', r) := CreatePermission(w, actor, input, description);
            var code := TrimSpace(input);
            var accepted := MatchesPattern(code) && !HasSuffix(code, ".manage");
            var taken := exists p :: p in w.grants.perms && w.grants.perms[p].code == code;
            && (r.Ok? <==> accepted && !taken)
            && (!accepted ==> Untouched(w, w', r, InvalidPermissionCode))
            && (accepted && taken ==> Untouched(w, w', r, PermissionCodeTaken))
            && (r.Ok? ==>
                  && r.value !in w.grants.perms
                  && w'.grants.perms == w.grants.perms[r.value := Permission(code, TrimSpace(description))]
                  && w'.grants.held == w.grants.held && w'.core == w.core && w'.cache == w.cache
                  && w'.audit == w.audit + [AuditEntry(w.core.now, Some(actor), PermissionChanged("created", r.value))])
  {
    CreationAnswers(w, actor, input, description);
    CreationStores(w, actor, input, description);
  }

  lemma CreationAnswers(w: World, actor: UserId, input: string, description: string)
    ensures var (w', r) := CreatePermission(w, actor, input, description);
            var code := TrimSpace(input);
            var accepted := MatchesPattern(code) && !HasSuffix(code, ".manage");
            var taken := exists p :: p in w.grants.perms && w.grants.perms[p].code == code;
            && (r.Ok? <==> accepted && !taken)
            && (!accepted ==> Untouched(w, w', r, InvalidPermissionCode))
            && (accepted && taken ==> Untouched(w, w', r, PermissionCodeTaken))
  {
    AcceptedCodes(TrimSpace(input));
  }

  lemma CreationStores(w: World, actor: UserId, input: string, description: string)
    requires w.grants.WellFormed()
    ensures var (w', r) := CreatePermission(w, actor, input, description);
            r.Ok? ==>
              && r.value !in w.grants.perms
              && w'.grants.perms == w.grants.perms[r.value := Permission(TrimSpace(input), TrimSpace(description))]
              && w'.grants.held == w.grants.held && w'.core == w.core && w'.cache == w.cache
              && w'.audit == w.audit + [AuditEntry(w.core.now, Some(actor), PermissionChanged("created", r.value))]
  {
  }

  /** A description is stored, trimmed, if and only if the permission exists; its code and all else stay. */
  lemma DescribeOutcome(w: World, actor: UserId, id: PermissionId, description: string)
    ensures var (w', r) := DescribePermission(w, actor, id, description);
            && (r.Ok? <==> id in w.grants.perms)
            && (!r.Ok? ==> Untouched(w, w', r, NotFound))
            && (r.Ok? ==>
                  && w'.grants.perms ==
                     w.grants.perms[id := Permission(w.grants.perms[id].code, TrimSpace(description))]
                  && w'.grants.held == w.grants.held && w'.core == w.core && w'.cache == w.cache
                  && w'.audit == w.audit + [AuditEntry(w.core.now, Some(actor), PermissionChanged("updated", id))])
  {
  }

  /**
   A permission is deleted if and only if it exists, is none of the three protected ones and nobody holds it;
   then nobody loses anything.
   */
  lemma DeleteOutcome(w: World, actor: UserId, id: PermissionId)
    ensures var (w', r) := DeletePermission(w, actor, id);
            var exists_ := id in w.grants.perms;
            var shielded := exists_ && w.grants.perms[id].code in {"*", "users.*", "audit_logs.read"};
            var unheld := forall u :: (u, id) !in w.grants.held;
            && (r.Ok? <==> exists_ && !shielded && unheld)
            && (!exists_ ==> Untouched(w, w', r, NotFound))
            && (shielded ==> Untouched(w, w', r, ProtectedPermission))
            && (exists_ && !shielded && !unheld ==> Untouched(w, w', r, PermissionInUse))
            && (r.Ok? ==>
                  && w'.grants.perms == w.grants.perms - {id} && w'.grants.held == w.grants.held
                  && w'.grants.lastId == w.grants.lastId && w'.core == w.core && w'.cache == w.cache
                  && w'.audit == w.audit + [AuditEntry(w.core.now, Some(actor), PermissionChanged("deleted", id))])
  {
    NobodyHolds(w.grants, id);
    if w.grants.CountAssignments(id) == 0 {
      DeleteUnassigned(w.grants, id, 0);
    }
  }

  lemma NobodyHolds(db: Grants, id: PermissionId)
    ensures db.CountAssignments(id) == 0 <==> forall u :: (u, id) !in db.held
  {
    var uses := set g | g in db.held && g.1 == id;
    if forall u :: (u, id) !in db.held {
      forall g | g in db.held
        ensures g.1 != id
      {
        assert (g.0, id) !in db.held;
      }
      assert uses == {};
    } else {
      var u :| (u, id) in db.held;
      assert (u, id) in uses;
    }
  }

  // ---- the cache ----

  /**
   With Redis answering, a check leaves the user's codes in the cache unless there are none, a hit untouched and
   a miss for one TTL from now; without it the cache is left alone.
   */
  lemma CheckFillsCache(cfg: Settings, w: World, userId: UserId, code: string, redis: bool)
    requires cfg.permTTL > 0
    ensures var (w', allowed) := HasPermission(cfg, w, userId, code, redis);
            var hit := redis && Get(w.cache, userId, w.core.now).Some?;
            && (hit || !redis ==> w' == w)
            && (redis && !hit ==>
                  && w'.cache - {userId} == w.cache - {userId}
                  && (userId in w'.cache <==> w.grants.CodesOf(userId) != {})
                  && (userId in w'.cache ==>
                        w'.cache[userId] == Entry(w.grants.CodesOf(userId), w.core.now + cfg.permTTL)))
            && w' == w.(cache := w'.cache)
  {
  }
}
