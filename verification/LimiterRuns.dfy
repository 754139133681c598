/** What the limiter does to whole runs of requests: which logins it refuses, and on whose account. */
module LimiterRuns {
  import opened Types
  import opened SessionProtocol
  import opened RateLimiter
  import opened Escalation
  import opened Requests
  import opened SessionRuns

  function LimitsOf(cfg: Settings): Limits {
    Limits(cfg.tiers, cfg.counterTTL)
  }

  // ---- one login ----

  /** The next Check of the key will be refused: it is blocked, or this attempt reaches the threshold m. */
  predicate Limited(keys: Keyspace, key: string, now: Time, m: nat) {
    Ttl(keys, Marker(key), now) > 0 || CountAt(keys, key, now) + 1 >= m
  }

  /** A Check of the one login key does not show on the other. */
  lemma CheckCounts(cfg: Settings, w: World, key: string, other: string, email: string, m: nat)
    requires key != other && !Clash(key, other) && 1 <= m && IsFirstBlocking(cfg.tiers, m) && cfg.counterTTL > 0
    ensures var (w', passes) := CheckLogin(cfg, w, key, email);
            && w'.core == w.core
            && (passes <==> !Limited(w.keys, key, w.core.now, m))
            && (passes ==> CountAt(w'.keys, key, w.core.now) == CountAt(w.keys, key, w.core.now) + 1)
            && SameView(w'.keys, w.keys, other)
  {
    CheckBlocksExactly(cfg.tiers, cfg.counterTTL, w.keys, key, w.core.now, m);
    OthersKeepView(cfg.tiers, cfg.counterTTL, w.keys, key, other, w.core.now);
  }

  lemma AdmitKeys(cfg: Settings, w: World, input: LoginInput)
    requires FreshHash(w.core, input.newToken)
    ensures var (w', r) := Admit(cfg, w, input);
            && w'.core.now == w.core.now
            && (r.Err? ==> r == Err(InvalidCredentials) && w'.keys == w.keys)
            && (r.Ok? ==> w'.keys == ResetBoth(w.keys, input))
  {
  }

  /** The IP key and the email key never show on each other. */
  lemma LoginKeysAreSeparate(ip: string, email: string)
    ensures LoginIPKey(ip) != LoginEmailKey(email)
    ensures !Clash(LoginIPKey(ip), LoginEmailKey(email)) && !Clash(LoginEmailKey(email), LoginIPKey(ip))
  {
    LoginKeysDiffer(ip, email);
    ClashingLoginKeys(ip, email);
  }

  /**
   A login is refused for its rate exactly when one of its keys is limited in the keyspace it finds; that
   changes no session.  One that gets as far as the credentials and fails has counted once on both keys, and
   a successful one whose Resets are answered leaves neither counter nor marker of either.
   */
  lemma LoginHonoursLimits(cfg: Settings, w: World, input: LoginInput, m: nat)
    requires FreshHash(w.core, input.newToken) && input.answered >= 2
    requires 1 <= m && IsFirstBlocking(cfg.tiers, m) && cfg.counterTTL > 0
    ensures var (w', r) := Login(cfg, w, input);
            var (ipKey, emailKey, now) := (LoginIPKey(input.ip), LoginEmailKey(input.email), w.core.now);
            && (r == Err(RateLimited) <==> Limited(w.keys, ipKey, now, m) || Limited(w.keys, emailKey, now, m))
            && (r == Err(RateLimited) ==> w'.core == w.core)
            && (r == Err(InvalidCredentials) ==>
                  && CountAt(w'.keys, ipKey, now) == CountAt(w.keys, ipKey, now) + 1 < m
                  && CountAt(w'.keys, emailKey, now) == CountAt(w.keys, emailKey, now) + 1 < m)
            && (r.Ok? && input.answered >= 4 ==>
                  {ipKey, Marker(ipKey), emailKey, Marker(emailKey)} !! w'.keys.Keys)
  {
    var ipKey, emailKey := LoginIPKey(input.ip), LoginEmailKey(input.email);
    LoginKeysAreSeparate(input.ip, input.email);
    var w1 := CheckLogin(cfg, w, ipKey, input.email).0;
    var w2 := CheckLogin(cfg, w1, emailKey, input.email).0;
    CheckCounts(cfg, w, ipKey, emailKey, input.email, m);
    CheckCounts(cfg, w1, emailKey, ipKey, input.email, m);
    SameViewSameLimit(w1.keys, w.keys, emailKey, w.core.now, m);
    SameViewSameLimit(w2.keys, w1.keys, ipKey, w.core.now, m);
    AdmitKeys(cfg, w2, input);
  }

  lemma SameViewSameLimit(a: Keyspace, b: Keyspace, key: string, now: Time, m: nat)
    requires SameView(a, b, key)
    ensures Limited(a, key, now, m) <==> Limited(b, key, now, m)
    ensures CountAt(a, key, now) == CountAt(b, key, now)
  {
    assert key in {key, Marker(key)} && Marker(key) in {key, Marker(key)};
  }

  /**
   A login for an email followed by ":block", by anyone, starts the block marker of that email: unless it
   succeeds, the email's first login is refused though it was never tried.
   */
  lemma MarkerLoginLocksOut(cfg: Settings, w: World, first: LoginInput, second: LoginInput, m: nat)
    requires w.keys == map[] && first.email == Marker(second.email)
    requires FreshHash(w.core, first.newToken) && first.answered >= 2 && second.answered >= 2
    requires 2 <= m && IsFirstBlocking(cfg.tiers, m) && cfg.counterTTL > 0
    requires var (w', r) := Login(cfg, w, first); r.Err? && FreshHash(w'.core, second.newToken)
    ensures Login(cfg, Login(cfg, w, first).0, second).1 == Err(RateLimited)
  {
    var ipKey, emailKey := LoginIPKey(first.ip), LoginEmailKey(first.email);
    LoginKeysAreSeparate(first.ip, first.email);
    MarkerOfLoginKey(second.email);
    var w1 := CheckLogin(cfg, w, ipKey, first.email).0;
    CheckCounts(cfg, w, ipKey, emailKey, first.email, m);
    CheckCounts(cfg, w1, emailKey, ipKey, first.email, m);
    SameViewSameLimit(w1.keys, w.keys, emailKey, w.core.now, m);
    FirstCheckArms(cfg, w1, emailKey, first.email, m);
    AdmitKeys(cfg, CheckLogin(cfg, w1, emailKey, first.email).0, first);
    LoginHonoursLimits(cfg, Login(cfg, w, first).0, second, m);
  }

  /** A first Check that passes leaves its counter with a deadline. */
  lemma FirstCheckArms(cfg: Settings, w: World, key: string, email: string, m: nat)
    requires 2 <= m && IsFirstBlocking(cfg.tiers, m) && key !in w.keys && Marker(key) !in w.keys
    ensures Ttl(CheckLogin(cfg, w, key, email).0.keys, key, w.core.now) ==
            if cfg.counterTTL > 0 then cfg.counterTTL else -2
  {
    BlocksExactlyFrom(cfg.tiers, m, 1);
  }

  // ---- whole runs ----

  /** The uses a login makes of the limiter. */
  function LoginUses(cfg: Settings, w: World, input: LoginInput): seq<Use>
    requires FreshHash(w.core, input.newToken)
  {
    var ipKey, emailKey, now := LoginIPKey(input.ip), LoginEmailKey(input.email), w.core.now;
    if input.answered < 1 then []
    else
      var (w1, ipPasses) := CheckLogin(cfg, w, ipKey, input.email);
      if !ipPasses || input.answered < 2 then [Checked(ipKey, now)]
      else
        [Checked(ipKey, now), Checked(emailKey, now)]
        + if Login(cfg, w, input).1.Ok? then ResetUses(input, now) else []
  }

  function ResetUses(input: LoginInput, now: Time): seq<Use> {
    (if input.answered >= 3 then [Cleared(LoginEmailKey(input.email), now)] else [])
    + (if input.answered >= 4 then [Cleared(LoginIPKey(input.ip), now)] else [])
  }

  function UsesOf(cfg: Settings, w: World, r: Request): seq<Use>
    requires Admissible(w, r.op)
  {
    if r.op.LoginOp? then LoginUses(cfg, w, r.op.login) else []
  }

  ghost function AllUses(cfg: Settings, ws: seq<World>, rs: seq<Request>, i: nat): seq<Use>
    requires Trace(cfg, ws, rs) && i < |ws|
  {
    if i == 0 then [] else AllUses(cfg, ws, rs, i - 1) + UsesOf(cfg, ws[i - 1], rs[i - 1])
  }

  lemma {:induction false} ReplayJoins(lim: Limits, start: Keyspace, a: seq<Use>, b: seq<Use>)
    ensures Replay(lim, start, a + b) == Replay(lim, Replay(lim, start, a), b)
  {
    if b == [] {
      assert a + b == a;
    } else {
      var n := |b| - 1;
      ReplayJoins(lim, start, a, b[..n]);
      assert (a + b)[..|a| + n] == a + b[..n];
    }
  }

  lemma ReplayOne(lim: Limits, start: Keyspace, use: Use)
    ensures Replay(lim, start, [use]) == Perform(lim, start, use)
  {
    assert [use][..0] == [];
  }

  lemma ResetsReplay(lim: Limits, keys: Keyspace, input: LoginInput, now: Time)
    ensures Replay(lim, keys, ResetUses(input, now)) == ResetBoth(keys, input)
  {
    var emailReset := if input.answered >= 3 then [Cleared(LoginEmailKey(input.email), now)] else [];
    var ipReset := if input.answered >= 4 then [Cleared(LoginIPKey(input.ip), now)] else [];
    ReplayJoins(lim, keys, emailReset, ipReset);
    if input.answered >= 3 {
      ReplayOne(lim, keys, emailReset[0]);
    }
    if input.answered >= 4 {
      ReplayOne(lim, Replay(lim, keys, emailReset), ipReset[0]);
    }
  }

  lemma TwoChecksReplay(lim: Limits, keys: Keyspace, first: Use, second: Use)
    ensures Replay(lim, keys, [first, second]) == Perform(lim, Perform(lim, keys, first), second)
  {
    ReplayOne(lim, keys, first);
    assert [first, second][..1] == [first];
  }

  lemma LoginReplays(cfg: Settings, w: World, input: LoginInput)
    requires FreshHash(w.core, input.newToken)
    ensures Login(cfg, w, input).0.keys == Replay(LimitsOf(cfg), w.keys, LoginUses(cfg, w, input))
  {
    var ipKey := LoginIPKey(input.ip);
    ReplayOne(LimitsOf(cfg), w.keys, Checked(ipKey, w.core.now));
    if input.answered >= 2 && CheckLogin(cfg, w, ipKey, input.email).1 {
      BothChecksReplay(cfg, w, input);
    }
  }

  lemma BothChecksReplay(cfg: Settings, w: World, input: LoginInput)
    requires FreshHash(w.core, input.newToken)
    requires input.answered >= 2 && CheckLogin(cfg, w, LoginIPKey(input.ip), input.email).1
    ensures Login(cfg, w, input).0.keys == Replay(LimitsOf(cfg), w.keys, LoginUses(cfg, w, input))
  {
    var lim, now := LimitsOf(cfg), w.core.now;
    var ipUse, emailUse := Checked(LoginIPKey(input.ip), now), Checked(LoginEmailKey(input.email), now);
    var w1 := CheckLogin(cfg, w, ipUse.key, input.email).0;
    var w2 := CheckLogin(cfg, w1, emailUse.key, input.email).0;
    TwoChecksReplay(lim, w.keys, ipUse, emailUse);
    assert w2.keys == Replay(lim, w.keys, [ipUse, emailUse]);
    AdmitKeys(cfg, w2, input);
    ReplayJoins(lim, w.keys, [ipUse, emailUse], ResetUses(input, now));
    ResetsReplay(lim, w2.keys, input, now);
    assert [ipUse, emailUse] + [] == [ipUse, emailUse];
  }

  lemma PermissionRequestKeepsKeys(cfg: Settings, w: World, r: Request)
    requires ConcernsPermissions(r.op)
    ensures Exec(cfg, w, r).keys == w.keys
  {
  }

  lemma UpdateKeepsKeys(cfg: Settings, w: World, r: Request)
    requires r.op.UpdateUserOp?
    ensures Exec(cfg, w, r).keys == w.keys
  {
    RequireAllIsAside(cfg, w, r.op.actor, PermissionsNeeded(r.op.input), r.redis);
  }

  lemma OthersKeepKeys(cfg: Settings, w: World, r: Request)
    requires Admissible(w, r.op) && !r.op.LoginOp?
    ensures Exec(cfg, w, r).keys == w.keys
  {
    if ConcernsPermissions(r.op) {
      PermissionRequestKeepsKeys(cfg, w, r);
    } else if r.op.UpdateUserOp? {
      UpdateKeepsKeys(cfg, w, r);
    }
  }

  lemma {:induction false} TraceReplays(cfg: Settings, ws: seq<World>, rs: seq<Request>, i: nat)
    requires Trace(cfg, ws, rs) && i < |ws|
    ensures ws[i].keys == Replay(LimitsOf(cfg), map[], AllUses(cfg, ws, rs, i))
  {
    if i > 0 {
      TraceReplays(cfg, ws, rs, i - 1);
      var w, r := ws[i - 1], rs[i - 1];
      ReplayJoins(LimitsOf(cfg), map[], AllUses(cfg, ws, rs, i - 1), UsesOf(cfg, w, r));
      if r.op.LoginOp? {
        LoginReplays(cfg, w, r.op.login);
      } else {
        OthersKeepKeys(cfg, w, r);
      }
    }
  }

  // ---- only its own logins limit an account ----

  /** No login so far used an email, or an IP address, that clashes with the one given. */
  ghost predicate NoClash(rs: seq<Request>, i: nat, ip: string, email: string)
    requires i <= |rs|
  {
    forall j | 0 <= j < i && rs[j].op.LoginOp? :: !Clash(rs[j].op.login.email, email) && !Clash(rs[j].op.login.ip, ip)
  }

  lemma LoginUsesItsKeys(cfg: Settings, w: World, input: LoginInput)
    requires FreshHash(w.core, input.newToken)
    ensures forall u | u in LoginUses(cfg, w, input) :: u.key in {LoginIPKey(input.ip), LoginEmailKey(input.email)}
  {
  }

  lemma LoginUsesDoNotClash(cfg: Settings, w: World, input: LoginInput, ip: string, email: string)
    requires FreshHash(w.core, input.newToken) && !Clash(input.email, email) && !Clash(input.ip, ip)
    ensures forall u | u in LoginUses(cfg, w, input) ::
              !Clash(u.key, LoginIPKey(ip)) && !Clash(u.key, LoginEmailKey(email))
  {
    LoginUsesItsKeys(cfg, w, input);
    ClashingLoginKeys(input.ip, ip);
    ClashingLoginKeys(input.email, email);
    ClashingLoginKeys(input.ip, email);
    ClashingLoginKeys(ip, input.email);
  }

  lemma {:induction false} UsesDoNotClash(cfg: Settings, ws: seq<World>, rs: seq<Request>, i: nat, ip: string,
                                          email: string)
    requires Trace(cfg, ws, rs) && i < |ws| && NoClash(rs, i, ip, email)
    ensures forall u | u in AllUses(cfg, ws, rs, i) ::
              !Clash(u.key, LoginIPKey(ip)) && !Clash(u.key, LoginEmailKey(email))
  {
    if i > 0 {
      UsesDoNotClash(cfg, ws, rs, i - 1, ip, email);
      if rs[i - 1].op.LoginOp? {
        LoginUsesDoNotClash(cfg, ws[i - 1], rs[i - 1].op.login, ip, email);
      }
    }
  }

  /** The keyspace as it would be had only this key's own Checks and Resets happened. */
  ghost function OwnKeys(cfg: Settings, ws: seq<World>, rs: seq<Request>, i: nat, key: string): Keyspace
    requires Trace(cfg, ws, rs) && i < |ws|
  {
    Replay(LimitsOf(cfg), map[], Own(AllUses(cfg, ws, rs, i), key))
  }

  /**
   In every state of every run in which no email and no IP address clashed with the login's, the login is
   refused for its rate exactly when its own IP address or its own email has earned it: what other emails
   and addresses did makes no difference.
   */
  lemma LimitsAreOwn(cfg: Settings, ws: seq<World>, rs: seq<Request>, i: nat, input: LoginInput, m: nat)
    requires Trace(cfg, ws, rs) && i < |ws| && NoClash(rs, i, input.ip, input.email)
    requires FreshHash(ws[i].core, input.newToken) && input.answered >= 2
    requires 1 <= m && IsFirstBlocking(cfg.tiers, m) && cfg.counterTTL > 0
    ensures var (ipKey, emailKey, now) := (LoginIPKey(input.ip), LoginEmailKey(input.email), ws[i].core.now);
            Login(cfg, ws[i], input).1 == Err(RateLimited) <==>
            || Limited(OwnKeys(cfg, ws, rs, i, ipKey), ipKey, now, m)
            || Limited(OwnKeys(cfg, ws, rs, i, emailKey), emailKey, now, m)
  {
    var ipKey, emailKey, now := LoginIPKey(input.ip), LoginEmailKey(input.email), ws[i].core.now;
    LoginHonoursLimits(cfg, ws[i], input, m);
    UsesDoNotClash(cfg, ws, rs, i, input.ip, input.email);
    OwnLimit(cfg, ws, rs, i, ipKey, now, m);
    OwnLimit(cfg, ws, rs, i, emailKey, now, m);
  }

  lemma OwnLimit(cfg: Settings, ws: seq<World>, rs: seq<Request>, i: nat, key: string, now: Time, m: nat)
    requires Trace(cfg, ws, rs) && i < |ws| && forall u | u in AllUses(cfg, ws, rs, i) :: !Clash(u.key, key)
    ensures Limited(ws[i].keys, key, now, m) <==> Limited(OwnKeys(cfg, ws, rs, i, key), key, now, m)
  {
    TraceReplays(cfg, ws, rs, i);
    OthersDoNotMatter(LimitsOf(cfg), map[], AllUses(cfg, ws, rs, i), key);
    SameViewSameLimit(ws[i].keys, OwnKeys(cfg, ws, rs, i, key), key, now, m);
  }

  /** An account and an address nobody has tried, nor shown on, are never refused at their first login. */
  lemma FirstLoginIsHeard(cfg: Settings, ws: seq<World>, rs: seq<Request>, i: nat, input: LoginInput, m: nat)
    requires Trace(cfg, ws, rs) && i < |ws| && NoClash(rs, i, input.ip, input.email)
    requires forall j | 0 <= j < i && rs[j].op.LoginOp? ::
               rs[j].op.login.email != input.email && rs[j].op.login.ip != input.ip
    requires FreshHash(ws[i].core, input.newToken) && input.answered >= 2
    requires 2 <= m && IsFirstBlocking(cfg.tiers, m) && cfg.counterTTL > 0
    ensures Login(cfg, ws[i], input).1 != Err(RateLimited)
  {
    LimitsAreOwn(cfg, ws, rs, i, input, m);
    NoOwnUses(cfg, ws, rs, i, input.ip, input.email);
  }

  lemma {:induction false} NoOwnUses(cfg: Settings, ws: seq<World>, rs: seq<Request>, i: nat, ip: string,
                                     email: string)
    requires Trace(cfg, ws, rs) && i < |ws|
    requires forall j | 0 <= j < i && rs[j].op.LoginOp? :: rs[j].op.login.email != email && rs[j].op.login.ip != ip
    ensures Own(AllUses(cfg, ws, rs, i), LoginIPKey(ip)) == []
              && Own(AllUses(cfg, ws, rs, i), LoginEmailKey(email)) == []
  {
    if i > 0 {
      NoOwnUses(cfg, ws, rs, i - 1, ip, email);
      var uses := UsesOf(cfg, ws[i - 1], rs[i - 1]);
      if rs[i - 1].op.LoginOp? {
        OthersUses(cfg, ws[i - 1], rs[i - 1].op.login, ip, email);
      }
      NoneOfOwn(AllUses(cfg, ws, rs, i - 1), uses, LoginIPKey(ip));
      NoneOfOwn(AllUses(cfg, ws, rs, i - 1), uses, LoginEmailKey(email));
    }
  }

  lemma OthersUses(cfg: Settings, w: World, input: LoginInput, ip: string, email: string)
    requires FreshHash(w.core, input.newToken) && input.ip != ip && input.email != email
    ensures forall u | u in LoginUses(cfg, w, input) :: u.key != LoginIPKey(ip) && u.key != LoginEmailKey(email)
  {
    LoginUsesItsKeys(cfg, w, input);
    LoginKeysAreInjective(input.ip, ip);
    LoginKeysAreInjective(input.email, email);
    LoginKeysDiffer(input.ip, email);
    LoginKeysDiffer(ip, input.email);
  }

  lemma {:induction false} NoneOfOwn(before: seq<Use>, uses: seq<Use>, key: string)
    requires Own(before, key) == [] && forall u | u in uses :: u.key != key
    ensures Own(before + uses, key) == []
  {
    if uses == [] {
      assert before + uses == before;
    } else {
      var n := |uses| - 1;
      NoneOfOwn(before, uses[..n], key);
      assert (before + uses)[..|before| + n] == before + uses[..n];
    }
  }
}
