/**
 The service operations on the whole shared state, one request at a time and one clock reading per
 request.  Session changes are sequences of the atomic events of SessionProtocol, so every invariant
 proved there of interleaved runs holds of these requests too.
 */
module Requests {
  import opened Types
  import opened SessionTable
  import opened SessionProtocol
  import opened RateLimiter
  import opened Matching
  import opened PermissionTable
  import opened PermissionCache

  /**
   Configuration, and the checks whose inside is not modelled here: comparing a password with a stored
   hash (Some(needsRehash) when it matches), and validating an email or a new password.
   */
  datatype Settings = Settings(
    sessions: Config,
    tiers: seq<Tier>,
    counterTTL: nat,
    permTTL: nat,
    verify: (string, string) -> Option<bool>,
    emailOk: string -> bool,
    passwordOk: (string, string, string) -> bool)

  datatype Error =
    | RateLimited | RateLimitDown | InvalidCredentials | InvalidSession | TokenReuse
    | NotFound | NotOwner | Unauthenticated | Forbidden
    | InvalidEmail | InvalidPassword | EmailTaken | CannotDeactivateSelf | LastAdmin
    | InvalidPermissionCode | PermissionCodeTaken | ProtectedPermission | PermissionInUse

  datatype Action =
    | LoginFailed(email: string, reason: string)
    | LoginSucceeded(sid: SessionId)
    | SessionCreated(sid: SessionId)
    | SessionRefreshed(consumed: SessionId, successor: SessionId)
    | SessionRevoked(sid: SessionId, reason: string)
    | SessionExpired(sid: SessionId)
    | LoggedOut(sid: SessionId)
    | OthersRevoked
    | SecurityAlert(reason: string)
    | PermissionChanged(what: string, id: PermissionId)
    | AssignmentChanged(what: string, userId: UserId, id: PermissionId)
    | UserChanged(what: string, userId: UserId)

  datatype AuditEntry = AuditEntry(at: Time, userId: Option<UserId>, action: Action)

  datatype World = World(
    core: Core,
    lastUser: nat,
    grants: Grants,
    cache: Entries,
    keys: Keyspace,
    audit: seq<AuditEntry>)

  datatype TokenPair = TokenPair(access: AccessToken, refresh: Hash, refreshExpiresAt: Time, sid: SessionId)

  /**
   What a login is given, the token and the hash it will generate, and how many of its five uses of Redis are
   answered before Redis goes down: two Checks, two Resets and one invalidation.
   */
  datatype LoginInput = LoginInput(
    email: string,
    plain: string,
    ip: string,
    newToken: Hash,
    newHash: string,
    answered: nat)

  datatype UserInput = UserInput(
    name: Option<string>,
    email: Option<string>,
    password: Option<string>,
    roleId: Option<nat>,
    active: Option<bool>)

  // ---- building blocks ----

  function Do(cfg: Settings, w: World, e: Event): World
    requires Enabled(cfg.sessions, w.core, e)
  {
    w.(core := Apply(cfg.sessions, w.core, e))
  }

  function Log(w: World, userId: Option<UserId>, action: Action): World {
    w.(audit := w.audit + [AuditEntry(w.core.now, userId, action)])
  }

  /** A DEL that is lost while Redis is down. */
  function Forget(w: World, userId: UserId, redis: bool): World {
    if redis then w.(cache := Invalidate(w.cache, userId)) else w
  }

  function FindByEmail(users: map<UserId, User>, email: string, upTo: nat): (found: Option<UserId>)
    ensures found.Some? ==> found.value in users && users[found.value].email == email
    ensures found.None? ==> forall id | id in users && id <= upTo :: users[id].email != email
  {
    var earlier := if upTo == 0 then None else FindByEmail(users, email, upTo - 1);
    if earlier.Some? then earlier
    else if upTo in users && users[upTo].email == email then Some(upTo)
    else None
  }

  // ---- AuthService ----

  function CreateSession(cfg: Settings, w: World, userId: UserId, newToken: Hash): (World, TokenPair)
    requires userId in w.core.users && FreshHash(w.core, newToken)
  {
    var inserted := Do(cfg, w, Insert(userId, newToken, w.core.now));
    var sid := inserted.core.lastId;
    var token := TokenFor(cfg.sessions, inserted.core, sid);
    var issued := Do(cfg, inserted, Issue(sid));
    (Log(issued, Some(userId), SessionCreated(sid)),
     TokenPair(token, newToken, w.core.now + cfg.sessions.refreshTTL, sid))
  }

  /** Whether the attempt may proceed. */
  function CheckLogin(cfg: Settings, w: World, key: string, email: string): (World, bool) {
    var (keys, verdict) := CheckKey(cfg.tiers, cfg.counterTTL, w.keys, key, w.core.now);
    var counted := w.(keys := keys);
    if !verdict.blocked then (counted, true)
    else
      var failed := Log(counted, None, LoginFailed(email, "rate_limited"));
      (if verdict.count >= MaxThreshold(cfg.tiers)
       then Log(failed, None, SecurityAlert("login_rate_limit"))
       else failed,
       false)
  }

  function Login(cfg: Settings, w: World, input: LoginInput): (World, Result<TokenPair, Error>)
    requires FreshHash(w.core, input.newToken)
  {
    if input.answered < 1 then (w, Err(RateLimitDown))
    else
      var (w1, ipPasses) := CheckLogin(cfg, w, LoginIPKey(input.ip), input.email);
      if !ipPasses then (w1, Err(RateLimited))
      else if input.answered < 2 then (w1, Err(RateLimitDown))
      else
        var (w2, emailPasses) := CheckLogin(cfg, w1, LoginEmailKey(input.email), input.email);
        if !emailPasses then (w2, Err(RateLimited)) else Admit(cfg, w2, input)
  }

  /** The user with that email, and whether the stored hash should be renewed; or why the credentials fail. */
  function CheckCredentials(cfg: Settings, w: World, input: LoginInput): (r: Result<(UserId, bool), string>)
    ensures r.Ok? ==>
              && r.value.0 in w.core.users
              && var user := w.core.users[r.value.0];
                 && user.active && user.email == input.email
                 && cfg.verify(user.passwordHash, input.plain) == Some(r.value.1)
  {
    match FindByEmail(w.core.users, input.email, w.lastUser)
    case None => Err("user_not_found")
    case Some(id) =>
      if !w.core.users[id].active then Err("user_inactive")
      else
        match cfg.verify(w.core.users[id].passwordHash, input.plain)
        case None => Err("wrong_password")
        case Some(needsRehash) => Ok((id, needsRehash))
  }

  /** Login past both limiter checks. */
  function Admit(cfg: Settings, w: World, input: LoginInput): (World, Result<TokenPair, Error>)
    requires FreshHash(w.core, input.newToken)
  {
    match CheckCredentials(cfg, w, input)
    case Err(reason) => (Log(w, None, LoginFailed(input.email, reason)), Err(InvalidCredentials))
    case Ok((id, needsRehash)) =>
      var (welcomed, pair) := Welcome(cfg, Rehash(cfg, w, id, needsRehash, input.newHash), id, input);
      (welcomed, Ok(pair))
  }

  /** The session, the Resets, the audit entry and the invalidation of a login that succeeds. */
  function Welcome(cfg: Settings, w: World, id: UserId, input: LoginInput): (World, TokenPair)
    requires id in w.core.users && FreshHash(w.core, input.newToken)
  {
    var (created, pair) := CreateSession(cfg, w, id, input.newToken);
    var reset := created.(keys := ResetBoth(created.keys, input));
    (Forget(Log(reset, Some(id), LoginSucceeded(pair.sid)), id, input.answered >= 5), pair)
  }

  /** The Resets of a successful login, the email's first; one that fails is only logged. */
  function ResetBoth(keys: Keyspace, input: LoginInput): Keyspace {
    var emailReset := if input.answered >= 3 then Del(keys, LoginEmailKey(input.email)) else keys;
    if input.answered >= 4 then Del(emailReset, LoginIPKey(input.ip)) else emailReset
  }

  function Rehash(cfg: Settings, w: World, id: UserId, needed: bool, newHash: string): World
    requires id in w.core.users
  {
    if needed then Do(cfg, w, PutUser(id, w.core.users[id].(passwordHash := newHash))) else w
  }

  function Refresh(cfg: Settings, w: World, token: Hash, newToken: Hash, redis: bool)
    : (World, Result<TokenPair, Error>)
    requires FreshHash(w.core, newToken)
  {
    match FindByHash(w.core.rows, token, Some(w.core.now), w.core.lastId)
    case None => RefreshMiss(cfg, w, token)
    case Some(sid) =>
      var userId := w.core.rows[sid].userId;
      if userId !in w.core.users || !w.core.users[userId].active then (w, Err(InvalidSession))
      else
        var (rotated, pair) := Rotate(cfg, w, sid, newToken, redis);
        (rotated, Ok(pair))
  }

  /** The presented session is revoked and its successor opened. */
  function Rotate(cfg: Settings, w: World, sid: SessionId, newToken: Hash, redis: bool): (World, TokenPair)
    requires sid in w.core.rows && w.core.rows[sid].userId in w.core.users && FreshHash(w.core, newToken)
  {
    Succeed(cfg, Do(cfg, w, RevokeOne(sid, w.core.now)), w.core.rows[sid].userId, sid, newToken, redis)
  }

  function Succeed(cfg: Settings, w: World, userId: UserId, consumed: SessionId, newToken: Hash, redis: bool)
    : (World, TokenPair)
    requires userId in w.core.users && FreshHash(w.core, newToken)
  {
    var (created, pair) := CreateSession(cfg, w, userId, newToken);
    (Forget(Log(created, Some(userId), SessionRefreshed(consumed, pair.sid)), userId, redis), pair)
  }

  /** A known token without an active session is taken for reuse of a consumed one. */
  function RefreshMiss(cfg: Settings, w: World, token: Hash): (World, Result<TokenPair, Error>) {
    match FindByHash(w.core.rows, token, None, w.core.lastId)
    case None => (w, Err(InvalidSession))
    case Some(sid) =>
      var row := w.core.rows[sid];
      if row.revoked || row.expiresAt < w.core.now then
        var swept := Do(cfg, w, RevokeUser(row.userId, w.core.now));
        var logged := Log(swept, Some(row.userId), SessionRevoked(sid, "refresh_token_reuse"));
        (Log(logged, Some(row.userId), SecurityAlert("refresh_token_reuse")), Err(TokenReuse))
      else (w, Err(InvalidSession))
  }

  function Logout(cfg: Settings, w: World, token: Hash): World {
    match FindByHash(w.core.rows, token, Some(w.core.now), w.core.lastId)
    case None => w
    case Some(sid) =>
      var userId := Some(w.core.rows[sid].userId);
      Log(Log(Do(cfg, w, RevokeOne(sid, w.core.now)), userId, LoggedOut(sid)), userId, SessionRevoked(sid, "logout"))
  }

  /** The Auth middleware: the token must be one the server signed, so it is looked up in `issued`. */
  function Authenticate(cfg: Settings, w: World, token: AccessToken): (World, Result<(UserId, SessionId), Error>) {
    if token !in w.core.issued || !token.Unexpired(w.core.now) then (w, Err(Unauthenticated))
    else if token.sub !in w.core.users || !w.core.users[token.sub].active then (w, Err(Unauthenticated))
    else
      var touched := Do(cfg, w, Touch(token.sid, w.core.now));
      if Touchable(w.core.rows, token.sid)
      then (touched, Ok((token.sub, token.sid)))
      else (touched, Err(Unauthenticated))
  }

  function RevokeSession(cfg: Settings, w: World, sid: SessionId, userId: UserId): (World, Result<(), Error>) {
    if sid !in w.core.rows then (w, Err(NotFound))
    else if w.core.rows[sid].userId != userId then (w, Err(NotOwner))
    else (Log(Do(cfg, w, RevokeOne(sid, w.core.now)), Some(userId), SessionRevoked(sid, "manual")), Ok(()))
  }

  function RevokeOtherSessions(cfg: Settings, w: World, userId: UserId, current: SessionId): World {
    Log(Do(cfg, w, RevokeOthers(userId, current, w.core.now)), Some(userId), OthersRevoked)
  }

  /** The listed rows' audit entries, in ascending id order. */
  function ExpiryEntries(rows: Table, cutoff: int, now: Time, upTo: nat): seq<AuditEntry> {
    (if upTo == 0 then [] else ExpiryEntries(rows, cutoff, now, upTo - 1))
    + (if upTo in rows && rows[upTo].Doomed(cutoff)
       then [AuditEntry(now, Some(rows[upTo].userId), SessionExpired(upTo))]
       else [])
  }

  function CleanupSessions(cfg: Settings, w: World): World {
    var cutoff := w.core.now - cfg.sessions.retention;
    var deleted := Do(cfg, w, Delete(cutoff));
    deleted.(audit := w.audit + ExpiryEntries(w.core.rows, cutoff, w.core.now, w.core.lastId))
  }

  // ---- PermissionService ----

  /** Cache-aside; with Redis down the join is consulted directly. */
  function HasPermission(cfg: Settings, w: World, userId: UserId, code: string, redis: bool): (World, bool) {
    match (if redis then Get(w.cache, userId, w.core.now) else None)
    case Some(codes) => (w, Authorised(codes, code))
    case None =>
      var codes := w.grants.CodesOf(userId);
      (if redis then w.(cache := Put(w.cache, userId, codes, w.core.now, cfg.permTTL)) else w, Authorised(codes, code))
  }

  function Grant(w: World, actor: UserId, userId: UserId, id: PermissionId, redis: bool): (World, Result<(), Error>) {
    if userId !in w.core.users || id !in w.grants.perms then (w, Err(NotFound))
    else if !Authorised(w.grants.CodesOf(actor), w.grants.perms[id].code) then (w, Err(Forbidden))
    else
      var granted := w.(grants := w.grants.Grant(userId, id));
      (Log(Forget(granted, userId, redis), Some(actor), AssignmentChanged("granted", userId, id)), Ok(()))
  }

  function Revoke(w: World, actor: UserId, userId: UserId, id: PermissionId, redis: bool)
    : (World, Result<(), Error>)
  {
    if userId !in w.core.users || id !in w.grants.perms then (w, Err(NotFound))
    else
      var revoked := w.(grants := w.grants.Revoke(userId, id));
      (Log(Forget(revoked, userId, redis), Some(actor), AssignmentChanged("revoked", userId, id)), Ok(()))
  }

  function CreatePermission(w: World, actor: UserId, input: string, description: string)
    : (World, Result<PermissionId, Error>)
  {
    var code := TrimSpace(input);
    if !ValidatePermissionCode(code) then (w, Err(InvalidPermissionCode))
    else if w.grants.CodeTaken(code) then (w, Err(PermissionCodeTaken))
    else
      var created := w.(grants := w.grants.Create(code, TrimSpace(description)));
      (Log(created, Some(actor), PermissionChanged("created", created.grants.lastId)), Ok(created.grants.lastId))
  }

  function DescribePermission(w: World, actor: UserId, id: PermissionId, description: string)
    : (World, Result<(), Error>)
  {
    if id !in w.grants.perms then (w, Err(NotFound))
    else
      var updated := w.(grants := w.grants.UpdateDescription(id, TrimSpace(description)));
      (Log(updated, Some(actor), PermissionChanged("updated", id)), Ok(()))
  }

  function DeletePermission(w: World, actor: UserId, id: PermissionId): (World, Result<(), Error>) {
    if id !in w.grants.perms then (w, Err(NotFound))
    else if IsProtectedPermissionCode(w.grants.perms[id].code) then (w, Err(ProtectedPermission))
    else if w.grants.CountAssignments(id) > 0 then (w, Err(PermissionInUse))
    else (Log(w.(grants := w.grants.Delete(id)), Some(actor), PermissionChanged("deleted", id)), Ok(()))
  }

  predicate IsSpace(c: char) {
    c in {' ', '\t', '\n', '\r', 11 as char, 12 as char}
  }

  function TrimSpace(s: string): string {
    if s == [] then s
    else if IsSpace(s[0]) then TrimSpace(s[1..])
    else if IsSpace(s[|s| - 1]) then TrimSpace(s[..|s| - 1])
    else s
  }

  // ---- UserService ----

  function CreateUser(cfg: Settings, w: World, actor: UserId, user: User, password: string)
    : (World, Result<UserId, Error>)
  {
    if !cfg.emailOk(user.email) then (w, Err(InvalidEmail))
    else if !cfg.passwordOk(password, user.name, user.email) then (w, Err(InvalidPassword))
    else if FindByEmail(w.core.users, user.email, w.lastUser).Some? then (w, Err(EmailTaken))
    else
      var id := w.lastUser + 1;
      var created := Do(cfg, w, PutUser(id, user.(active := true))).(lastUser := id);
      (Log(created, Some(actor), UserChanged("created", id)), Ok(id))
  }

  /** The permissions Update asks of the actor, in the order it asks. */
  function PermissionsNeeded(input: UserInput): seq<string> {
    (if input.name.Some? || input.email.Some? || input.roleId.Some? then ["users.update"] else [])
    + (if input.password.Some? then ["users.password.reset"] else [])
    + (if input.active.Some? then ["users.deactivate"] else [])
  }

  function RequireAll(cfg: Settings, w: World, actor: UserId, codes: seq<string>, redis: bool): (World, bool)
    decreases |codes|
  {
    if codes == [] then (w, true)
    else
      var (asked, allowed) := HasPermission(cfg, w, actor, codes[0], redis);
      if allowed then RequireAll(cfg, asked, actor, codes[1..], redis) else (asked, false)
  }

  function Or<T>(given: Option<T>, current: T): T {
    if given.Some? then given.value else current
  }

  function Edited(user: User, input: UserInput, newHash: string): User {
    User(Or(input.name, user.name),
         Or(input.email, user.email),
         if input.password.Some? then newHash else user.passwordHash,
         if input.roleId.Some? then input.roleId else user.roleId,
         Or(input.active, user.active))
  }

  function UpdateUser(cfg: Settings, w: World, actor: UserId, userId: UserId, input: UserInput,
                      newHash: string, redis: bool)
    : (World, Result<User, Error>)
  {
    if input.active == Some(false) && actor == userId then (w, Err(CannotDeactivateSelf))
    else
      var (asked, allowed) := RequireAll(cfg, w, actor, PermissionsNeeded(input), redis);
      if !allowed then (asked, Err(Forbidden))
      else if userId !in asked.core.users then (asked, Err(NotFound))
      else
        match UpdateRefusal(cfg, asked, userId, input)
        case Some(error) => (asked, Err(error))
        case None => ApplyUpdate(cfg, asked, actor, userId, Edited(asked.core.users[userId], input, newHash), redis)
  }

  /** Why an Update the actor may make is refused: the last administrator, the new email, the new password. */
  function UpdateRefusal(cfg: Settings, w: World, userId: UserId, input: UserInput): Option<Error>
    requires userId in w.core.users
  {
    var user := w.core.users[userId];
    if input.active == Some(false) && user.active && "*" in w.grants.CodesOf(userId)
       && |w.grants.HoldersOf("*", w.core.users)| <= 1 then Some(LastAdmin)
    else if input.email.Some? && !cfg.emailOk(input.email.value) then Some(InvalidEmail)
    else if input.email.Some? && input.email.value != user.email
            && FindByEmail(w.core.users, input.email.value, w.lastUser).Some?
            && FindByEmail(w.core.users, input.email.value, w.lastUser) != Some(userId) then Some(EmailTaken)
    else if input.password.Some?
            && !cfg.passwordOk(input.password.value, Or(input.name, user.name), Or(input.email, user.email))
    then Some(InvalidPassword)
    else None
  }

  function ApplyUpdate(cfg: Settings, w: World, actor: UserId, userId: UserId, edited: User, redis: bool)
    : (World, Result<User, Error>)
    requires userId in w.core.users
  {
    var wasActive := w.core.users[userId].active;
    var logged := Log(Settle(cfg, w, userId, edited, redis), Some(actor), UserChanged("updated", userId));
    (if wasActive == edited.active then logged
     else Log(logged, Some(actor), UserChanged(if edited.active then "activated" else "deactivated", userId)),
     Ok(edited))
  }

  /** The user's row and, when an active account is switched off, the user's sessions and cached codes. */
  function Settle(cfg: Settings, w: World, userId: UserId, edited: User, redis: bool): World
    requires userId in w.core.users
  {
    var saved := Do(cfg, w, PutUser(userId, edited));
    if w.core.users[userId].active && !edited.active
    then Forget(Do(cfg, saved, RevokeUser(userId, w.core.now)), userId, redis)
    else saved
  }

  // ---- start-up ----

  function SeedAdmin(cfg: Settings, w: World, email: string, password: string, passwordHash: string,
                     roleId: Option<nat>)
    : (World, Result<(), Error>)
  {
    if |w.core.users| > 0 then (w, Ok(()))
    else if password == "" then (w, Err(InvalidPassword))
    else
      var id := w.lastUser + 1;
      var saved := Do(cfg, w, PutUser(id, User("Administrador", email, passwordHash, roleId, true)));
      (saved.(lastUser := id, grants := saved.grants.GrantAll(id)), Ok(()))
  }

  // ---- requests ----

  datatype Op =
    | Wait(to: Time)
    | LoginOp(login: LoginInput)
    | RefreshOp(token: Hash, newToken: Hash)
    | LogoutOp(token: Hash)
    | AuthenticateOp(access: AccessToken)
    | RevokeSessionOp(sid: SessionId, userId: UserId)
    | RevokeOthersOp(userId: UserId, current: SessionId)
    | CleanupOp
    | HasPermissionOp(userId: UserId, code: string)
    | GrantOp(actor: UserId, userId: UserId, id: PermissionId)
    | RevokeOp(actor: UserId, userId: UserId, id: PermissionId)
    | CreatePermissionOp(actor: UserId, code: string, description: string)
    | DescribeOp(actor: UserId, id: PermissionId, description: string)
    | DeletePermissionOp(actor: UserId, id: PermissionId)
    | CreateUserOp(actor: UserId, user: User, password: string)
    | UpdateUserOp(actor: UserId, userId: UserId, input: UserInput, newHash: string)

  /** A request, and whether Redis answers while it runs; a login says in its input how far Redis answers. */
  datatype Request = Request(op: Op, redis: bool)

  /** Generated refresh tokens are new, and the clock does not go back. */
  predicate Admissible(w: World, op: Op) {
    match op
    case Wait(to) => w.core.now <= to
    case LoginOp(input) => FreshHash(w.core, input.newToken)
    case RefreshOp(_, newToken) => FreshHash(w.core, newToken)
    case _ => true
  }

  function Exec(cfg: Settings, w: World, r: Request): World
    requires Admissible(w, r.op)
  {
    match r.op
    case Wait(to) => Do(cfg, w, Tick(to))
    case LoginOp(input) => Login(cfg, w, input).0
    case RefreshOp(token, newToken) => Refresh(cfg, w, token, newToken, r.redis).0
    case LogoutOp(token) => Logout(cfg, w, token)
    case AuthenticateOp(access) => Authenticate(cfg, w, access).0
    case RevokeSessionOp(sid, userId) => RevokeSession(cfg, w, sid, userId).0
    case RevokeOthersOp(userId, current) => RevokeOtherSessions(cfg, w, userId, current)
    case CleanupOp => CleanupSessions(cfg, w)
    case HasPermissionOp(userId, code) => HasPermission(cfg, w, userId, code, r.redis).0
    case GrantOp(actor, userId, id) => Grant(w, actor, userId, id, r.redis).0
    case RevokeOp(actor, userId, id) => Revoke(w, actor, userId, id, r.redis).0
    case CreatePermissionOp(actor, code, description) => CreatePermission(w, actor, code, description).0
    case DescribeOp(actor, id, description) => DescribePermission(w, actor, id, description).0
    case DeletePermissionOp(actor, id) => DeletePermission(w, actor, id).0
    case CreateUserOp(actor, user, password) => CreateUser(cfg, w, actor, user, password).0
    case UpdateUserOp(actor, userId, input, newHash) => UpdateUser(cfg, w, actor, userId, input, newHash, r.redis).0
  }

  /** A run from an installed system with no sessions yet and a flushed cache. */
  ghost predicate Start(w: World) {
    && Initial(w.core)
    && w.audit == [] && w.cache == map[] && w.keys == map[]
    && w.grants.WellFormed()
    && forall u | u in w.core.users :: u <= w.lastUser
  }

  ghost predicate Trace(cfg: Settings, ws: seq<World>, rs: seq<Request>) {
    && |ws| == |rs| + 1
    && Start(ws[0])
    && forall i | 0 <= i < |rs| :: Admissible(ws[i], rs[i].op) && ws[i + 1] == Exec(cfg, ws[i], rs[i])
  }
}
