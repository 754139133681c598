/** Requests run one at a time are a special case of the interleaved protocol, so its theorems apply to them. */
module Serialisation {
  import opened Types
  import opened SessionTable
  import opened SessionProtocol
  import opened Requests
  import opened SessionRuns

  /** A stretch of an interleaved run: states and the events between them. */
  datatype Path = Path(cs: seq<Core>, es: seq<Event>)
  {
    ghost predicate Valid(cfg: Config) {
      && |cs| == |es| + 1
      && forall i | 0 <= i < |es| :: Enabled(cfg, cs[i], es[i]) && cs[i + 1] == Apply(cfg, cs[i], es[i])
    }

    ghost predicate Leads(cfg: Config, from: Core, to: Core) {
      Valid(cfg) && cs[0] == from && cs[|es|] == to
    }

    function Then(next: Path): Path
      requires |next.cs| > 0
    {
      Path(cs + next.cs[1..], es + next.es)
    }
  }

  lemma Standing(cfg: Config, c: Core) returns (p: Path)
    ensures p.Leads(cfg, c, c)
  {
    p := Path([c], []);
  }

  lemma Step(cfg: Config, c: Core, e: Event) returns (p: Path)
    requires Enabled(cfg, c, e)
    ensures p.Leads(cfg, c, Apply(cfg, c, e))
  {
    p := Path([c, Apply(cfg, c, e)], [e]);
  }

  lemma Joined(cfg: Config, p: Path, q: Path, a: Core, b: Core, c: Core)
    requires p.Leads(cfg, a, b) && q.Leads(cfg, b, c)
    ensures p.Then(q).Leads(cfg, a, c)
    ensures forall i | 0 <= i <= |p.es| :: p.Then(q).cs[i] == p.cs[i]
  {
    var r, n := p.Then(q), |p.es|;
    forall i | 0 <= i < |r.es|
      ensures Enabled(cfg, r.cs[i], r.es[i]) && r.cs[i + 1] == Apply(cfg, r.cs[i], r.es[i])
    {
      if i < n {
        assert r.cs[i] == p.cs[i] && r.cs[i + 1] == p.cs[i + 1] && r.es[i] == p.es[i];
      } else {
        assert r.cs[i] == q.cs[i - n] && r.cs[i + 1] == q.cs[i - n + 1] && r.es[i] == q.es[i - n];
      }
    }
  }

  lemma CreateSessionPath(cfg: Settings, w: World, userId: UserId, newToken: Hash) returns (p: Path)
    requires userId in w.core.users && FreshHash(w.core, newToken)
    ensures p.Leads(cfg.sessions, w.core, CreateSession(cfg, w, userId, newToken).0.core)
  {
    var insert := Insert(userId, newToken, w.core.now);
    var inserted := Do(cfg, w, insert).core;
    var first := Step(cfg.sessions, w.core, insert);
    var second := Step(cfg.sessions, inserted, Issue(inserted.lastId));
    Joined(cfg.sessions, first, second, w.core, inserted, Apply(cfg.sessions, inserted, Issue(inserted.lastId)));
    p := first.Then(second);
  }

  /** An event and then a session opened for the user. */
  lemma EventThenSession(cfg: Settings, w: World, e: Event, userId: UserId, newToken: Hash) returns (p: Path)
    requires Enabled(cfg.sessions, w.core, e)
    requires userId in Do(cfg, w, e).core.users && FreshHash(Do(cfg, w, e).core, newToken)
    ensures p.Leads(cfg.sessions, w.core, CreateSession(cfg, Do(cfg, w, e), userId, newToken).0.core)
  {
    var done := Do(cfg, w, e);
    var first := Step(cfg.sessions, w.core, e);
    var second := CreateSessionPath(cfg, done, userId, newToken);
    Joined(cfg.sessions, first, second, w.core, done.core, CreateSession(cfg, done, userId, newToken).0.core);
    p := first.Then(second);
  }

  lemma AdmitPath(cfg: Settings, w: World, input: LoginInput) returns (p: Path)
    requires FreshHash(w.core, input.newToken)
    ensures p.Leads(cfg.sessions, w.core, Admit(cfg, w, input).0.core)
  {
    match CheckCredentials(cfg, w, input)
    case Err(_) => p := Standing(cfg.sessions, w.core);
    case Ok((id, needsRehash)) =>
      if needsRehash {
        var e := PutUser(id, w.core.users[id].(passwordHash := input.newHash));
        p := EventThenSession(cfg, w, e, id, input.newToken);
      } else {
        p := CreateSessionPath(cfg, w, id, input.newToken);
      }
  }

  lemma RefreshPath(cfg: Settings, w: World, token: Hash, newToken: Hash, redis: bool) returns (p: Path)
    requires FreshHash(w.core, newToken)
    ensures p.Leads(cfg.sessions, w.core, Refresh(cfg, w, token, newToken, redis).0.core)
  {
    var (w', r) := Refresh(cfg, w, token, newToken, redis);
    if r.Ok? {
      var sid := FindByHash(w.core.rows, token, Some(w.core.now), w.core.lastId).value;
      p := EventThenSession(cfg, w, RevokeOne(sid, w.core.now), w.core.rows[sid].userId, newToken);
    } else if r == Err(TokenReuse) {
      var sid := FindByHash(w.core.rows, token, None, w.core.lastId).value;
      p := Step(cfg.sessions, w.core, RevokeUser(w.core.rows[sid].userId, w.core.now));
    } else {
      p := Standing(cfg.sessions, w.core);
    }
  }

  lemma ApplyUpdatePath(cfg: Settings, w: World, actor: UserId, userId: UserId, edited: User, redis: bool)
    returns (p: Path)
    requires userId in w.core.users
    ensures p.Leads(cfg.sessions, w.core, ApplyUpdate(cfg, w, actor, userId, edited, redis).0.core)
  {
    var saved := Do(cfg, w, PutUser(userId, edited));
    p := Step(cfg.sessions, w.core, PutUser(userId, edited));
    if w.core.users[userId].active && !edited.active {
      var sweep := RevokeUser(userId, w.core.now);
      var second := Step(cfg.sessions, saved.core, sweep);
      Joined(cfg.sessions, p, second, w.core, saved.core, Apply(cfg.sessions, saved.core, sweep));
      p := p.Then(second);
    }
  }

  /** The requests that are at most one session event. */
  lemma SmallPath(cfg: Settings, w: World, r: Request) returns (p: Path)
    requires Admissible(w, r.op) && !ConcernsPermissions(r.op)
    requires !r.op.LoginOp? && !r.op.RefreshOp? && !r.op.UpdateUserOp?
    ensures p.Leads(cfg.sessions, w.core, Exec(cfg, w, r).core)
  {
    var now, c' := w.core.now, Exec(cfg, w, r).core;
    if c' == w.core {
      p := Standing(cfg.sessions, w.core);
      return;
    }
    var e: Event;
    match r.op {
      case Wait(to) => e := Tick(to);
      case LogoutOp(token) => e := RevokeOne(FindByHash(w.core.rows, token, Some(now), w.core.lastId).value, now);
      case AuthenticateOp(access) => e := Touch(access.sid, now);
      case RevokeSessionOp(sid, _) => e := RevokeOne(sid, now);
      case RevokeOthersOp(userId, current) => e := RevokeOthers(userId, current, now);
      case CleanupOp => e := Delete(now - cfg.sessions.retention);
      case CreateUserOp(_, user, _) => e := PutUser(w.lastUser + 1, user.(active := true));
    }
    p := Step(cfg.sessions, w.core, e);
  }

  lemma ExecPath(cfg: Settings, w: World, r: Request) returns (p: Path)
    requires Admissible(w, r.op)
    ensures p.Leads(cfg.sessions, w.core, Exec(cfg, w, r).core)
  {
    if ConcernsPermissions(r.op) {
      PermissionRequestIsAside(cfg, w, r);
      p := Standing(cfg.sessions, w.core);
    } else if r.op.LoginOp? {
      p := LoginPath(cfg, w, r);
    } else if r.op.RefreshOp? {
      p := RefreshPath(cfg, w, r.op.token, r.op.newToken, r.redis);
    } else if r.op.UpdateUserOp? {
      p := UpdatePath(cfg, w, r);
    } else {
      p := SmallPath(cfg, w, r);
    }
  }

  lemma LoginPath(cfg: Settings, w: World, r: Request) returns (p: Path)
    requires Admissible(w, r.op) && r.op.LoginOp?
    ensures p.Leads(cfg.sessions, w.core, Exec(cfg, w, r).core)
  {
    var checked := LoginIsAdmit(cfg, w, r.op.login);
    if Login(cfg, w, r.op.login) == Admit(cfg, checked, r.op.login) {
      p := AdmitPath(cfg, checked, r.op.login);
    } else {
      p := Standing(cfg.sessions, w.core);
    }
  }

  lemma UpdatePath(cfg: Settings, w: World, r: Request) returns (p: Path)
    requires r.op.UpdateUserOp?
    ensures p.Leads(cfg.sessions, w.core, Exec(cfg, w, r).core)
  {
    var UpdateUserOp(actor, userId, input, newHash) := r.op;
    var asked := RequireAll(cfg, w, actor, PermissionsNeeded(input), r.redis).0;
    RequireAllIsAside(cfg, w, actor, PermissionsNeeded(input), r.redis);
    if UpdateUser(cfg, w, actor, userId, input, newHash, r.redis).1.Ok? {
      p := ApplyUpdatePath(cfg, asked, actor, userId, Edited(asked.core.users[userId], input, newHash), r.redis);
    } else {
      p := Standing(cfg.sessions, w.core);
    }
  }

  lemma {:induction false} TracePath(cfg: Settings, ws: seq<World>, rs: seq<Request>, i: nat, j: nat)
    returns (p: Path)
    requires Trace(cfg, ws, rs) && i <= j < |ws|
    ensures p.Leads(cfg.sessions, ws[i].core, ws[j].core)
  {
    if i == j {
      p := Standing(cfg.sessions, ws[i].core);
    } else {
      var front := TracePath(cfg, ws, rs, i, j - 1);
      var last := ExecPath(cfg, ws[j - 1], rs[j - 1]);
      Joined(cfg.sessions, front, last, ws[i].core, ws[j - 1].core, ws[j].core);
      p := front.Then(last);
    }
  }

  /** Any two states of a run of requests are states of one interleaved run, in the same order. */
  lemma RequestsAreInterleavings(cfg: Settings, ws: seq<World>, rs: seq<Request>, i: nat, j: nat)
    returns (cs: seq<Core>, es: seq<Event>, at: nat)
    requires Trace(cfg, ws, rs) && i <= j < |ws|
    ensures Run(cfg.sessions, cs, es)
    ensures at < |cs| && cs[at] == ws[i].core && cs[|cs| - 1] == ws[j].core
  {
    var before := TracePath(cfg, ws, rs, 0, i);
    var after := TracePath(cfg, ws, rs, i, j);
    Joined(cfg.sessions, before, after, ws[0].core, ws[i].core, ws[j].core);
    var whole := before.Then(after);
    cs, es, at := whole.cs, whole.es, |before.es|;
    assert cs[0] == before.cs[0] && cs[at] == before.cs[at];
  }

  /**
   Revocation is final for requests: what has ended stays ended, and Authenticate and Refresh never accept it
   again.
   */
  lemma RevocationIsFinalForRequests(cfg: Settings, ws: seq<World>, rs: seq<Request>, i: nat, j: nat,
                                     id: SessionId, t: AccessToken, newToken: Hash)
    requires Trace(cfg, ws, rs) && i <= j < |ws|
    requires Ended(ws[i].core, id) && t.sid == id && FreshHash(ws[j].core, newToken)
    ensures Authenticate(cfg, ws[j], t).1.Err?
    ensures id in ws[j].core.made && Refresh(cfg, ws[j], ws[j].core.made[id].tokenHash, newToken, true).1.Err?
  {
    var cs, es, at := RequestsAreInterleavings(cfg, ws, rs, i, j);
    RevocationIsFinal(cfg.sessions, cs, es, at, |cs| - 1, id);
    assert Rejected(ws[j].core, id);
    assert FindByHash(ws[j].core.rows, ws[j].core.made[id].tokenHash, Some(ws[j].core.now), ws[j].core.lastId).None?;
  }
}
