/**
 Any number of concurrent Login calls, each passing the limiter on its IP key and then on its email
 key, with every Check split into its Redis commands, the commands of all calls interleaved on one
 keyspace, and any command allowed to fail.
 */
module RateProtocol {
  import opened Types
  import opened RateLimiter
  import opened Escalation

  datatype Stage = OnIp | OnEmail

  /** What one INCR returned: the counter lifetime it fell in, the new count, and when it ran. */
  datatype Ticket = Ticket(gen: nat, count: nat, at: Time)

  datatype Pc =
    | Probe(stage: Stage)              // about to ask for the block marker's TTL
    | Counting(stage: Stage)           // about to INCR
    | Arm(stage: Stage)                // about to EXPIRE, after a count of 1
    | Decide(stage: Stage)             // about to SET the block marker or pass
    | Verifying                        // both checks passed: the password is compared
    | Rejected                         // it was wrong
    | Clearing(stage: Stage)           // it was right: about to Reset the email key, then the IP key
    | Done
    | Refused                          // rate-limited, or Redis failed

  datatype Call = Call(ip: string, email: string, pc: Pc, onIp: Option<Ticket>, onEmail: Option<Ticket>)
  {
    function KeyAt(stage: Stage): string {
      match stage
      case OnIp => LoginIPKey(ip)
      case OnEmail => LoginEmailKey(email)
    }

    function TicketAt(stage: Stage): Option<Ticket> {
      match stage
      case OnIp => onIp
      case OnEmail => onEmail
    }

    function TicketOn(key: string): Option<Ticket> {
      if key == LoginIPKey(ip) then onIp else if key == LoginEmailKey(email) then onEmail else None
    }

    /** The call got as far as the password comparison. */
    predicate Reached() {
      pc.Verifying? || pc.Rejected? || pc.Clearing? || pc.Done?
    }

    function WithTicket(stage: Stage, t: Ticket): Call {
      match stage
      case OnIp => this.(onIp := Some(t))
      case OnEmail => this.(onEmail := Some(t))
    }
  }

  /** `births` records when an INCR began each counter lifetime of each key; lifetimes of a key are numbered from 1. */
  datatype State = State(
    now: Time,
    keys: Keyspace,
    births: map<string, seq<Time>>,
    calls: map<nat, Call>)
  {
    function BirthsOf(key: string): seq<Time> {
      if key in births then births[key] else []
    }
  }

  datatype Event =
    | Tick(to: Time)
    | Start(id: nat, ip: string, email: string)
    | Ask(id: nat)
    | Increment(id: nat)
    | ArmExpire(id: nat, lost: bool)
    | Finish(id: nat)
    | Fail(id: nat)                    // a command the call depends on fails
    | Reject(id: nat)                  // the credentials are wrong
    | Accept(id: nat)                  // they are right
    | Delete(id: nat, lost: bool)      // one Reset of a login that succeeded

  predicate Enabled(s: State, e: Event) {
    match e
    case Tick(to) => s.now <= to
    case Start(id, _, _) => id !in s.calls
    case Ask(id) => id in s.calls && s.calls[id].pc.Probe?
    case Increment(id) => id in s.calls && s.calls[id].pc.Counting?
    case ArmExpire(id, _) => id in s.calls && s.calls[id].pc.Arm?
    case Finish(id) => id in s.calls && s.calls[id].pc.Decide? && s.calls[id].TicketAt(s.calls[id].pc.stage).Some?
    case Fail(id) => id in s.calls && !s.calls[id].Reached()
    case Reject(id) => id in s.calls && s.calls[id].pc.Verifying?
    case Accept(id) => id in s.calls && s.calls[id].pc.Verifying?
    case Delete(id, _) => id in s.calls && s.calls[id].pc.Clearing?
  }

  function Apply(lim: Limits, s: State, e: Event): State
    requires Enabled(s, e)
  {
    match e
    case Tick(to) => s.(now := to)
    case Start(id, ip, email) => s.(calls := s.calls[id := Call(ip, email, Probe(OnIp), None, None)])
    case Ask(id) =>
      var call := s.calls[id];
      var blocked := Ttl(s.keys, Marker(call.KeyAt(call.pc.stage)), s.now) > 0;
      s.(calls := s.calls[id := call.(pc := if blocked then Refused else Counting(call.pc.stage))])
    case Increment(id) => ApplyIncrement(s, id)
    case ArmExpire(id, lost) =>
      var call := s.calls[id];
      var keys := if lost then s.keys else Expire(s.keys, call.KeyAt(call.pc.stage), s.now, lim.counterTTL);
      s.(keys := keys, calls := s.calls[id := call.(pc := Decide(call.pc.stage))])
    case Finish(id) =>
      var call := s.calls[id];
      var block := BlockFor(lim.tiers, call.TicketAt(call.pc.stage).value.count);
      if block > 0 then
        s.(keys := SetBlock(s.keys, call.KeyAt(call.pc.stage), s.now, block),
           calls := s.calls[id := call.(pc := Refused)])
      else
        s.(calls := s.calls[id := call.(pc := if call.pc.stage.OnIp? then Probe(OnEmail) else Verifying)])
    case Fail(id) => s.(calls := s.calls[id := s.calls[id].(pc := Refused)])
    case Reject(id) => s.(calls := s.calls[id := s.calls[id].(pc := Rejected)])
    case Accept(id) => s.(calls := s.calls[id := s.calls[id].(pc := Clearing(OnEmail))])
    case Delete(id, lost) =>
      var call := s.calls[id];
      var keys := if lost then s.keys else Del(s.keys, call.KeyAt(call.pc.stage));
      var next := if call.pc.stage.OnEmail? then Clearing(OnIp) else Done;
      s.(keys := keys, calls := s.calls[id := call.(pc := next)])
  }

  function ApplyIncrement(s: State, id: nat): State
    requires id in s.calls && s.calls[id].pc.Counting?
  {
    var call := s.calls[id];
    var stage := call.pc.stage;
    var key := call.KeyAt(stage);
    var keys := Incr(s.keys, key, s.now);
    var count := keys[key].value;
    var births := if Live(s.keys, key, s.now) then s.BirthsOf(key) else s.BirthsOf(key) + [s.now];
    var next := if count == 1 then Arm(stage) else Decide(stage);
    s.(keys := keys,
       births := s.births[key := births],
       calls := s.calls[id := call.WithTicket(stage, Ticket(|births|, count, s.now)).(pc := next)])
  }

  predicate Initial(s: State) {
    s.keys == map[] && s.births == map[] && s.calls == map[]
  }

  ghost predicate Run(lim: Limits, ss: seq<State>, es: seq<Event>) {
    && |ss| == |es| + 1
    && Initial(ss[0])
    && forall i | 0 <= i < |es| :: Enabled(ss[i], es[i]) && ss[i + 1] == Apply(lim, ss[i], es[i])
  }

  /** The commands of one Check, run without interruption and without a failure. */
  function Undisturbed(lim: Limits, s: State, id: nat): State
    requires id in s.calls && s.calls[id].pc.Probe?
  {
    var asked := Apply(lim, s, Ask(id));
    if asked.calls[id].pc.Refused? then asked else Counted(lim, asked, id)
  }

  /** From the INCR on. */
  function Counted(lim: Limits, s: State, id: nat): State
    requires id in s.calls && s.calls[id].pc.Counting?
  {
    var counted := Apply(lim, s, Increment(id));
    var armed := if counted.calls[id].pc.Arm? then Apply(lim, counted, ArmExpire(id, false)) else counted;
    Apply(lim, armed, Finish(id))
  }

  lemma CountedIsCheckKey(lim: Limits, s: State, id: nat)
    requires id in s.calls && s.calls[id].pc.Counting?
    requires Ttl(s.keys, Marker(s.calls[id].KeyAt(s.calls[id].pc.stage)), s.now) <= 0
    ensures var key := s.calls[id].KeyAt(s.calls[id].pc.stage);
            var (keys, verdict) := CheckKey(lim.tiers, lim.counterTTL, s.keys, key, s.now);
            && Counted(lim, s, id).keys == keys
            && (Counted(lim, s, id).calls[id].pc.Refused? <==> verdict.blocked)
  {
  }

  /** Undisturbed, the commands of a Check do to the whole keyspace what CheckKey says in one step. */
  lemma UndisturbedIsCheckKey(lim: Limits, s: State, id: nat)
    requires id in s.calls && s.calls[id].pc.Probe?
    ensures var key := s.calls[id].KeyAt(s.calls[id].pc.stage);
            var (keys, verdict) := CheckKey(lim.tiers, lim.counterTTL, s.keys, key, s.now);
            && Undisturbed(lim, s, id).keys == keys
            && (Undisturbed(lim, s, id).calls[id].pc.Refused? <==> verdict.blocked)
  {
    var asked := Apply(lim, s, Ask(id));
    if !asked.calls[id].pc.Refused? {
      CountedIsCheckKey(lim, asked, id);
    }
  }

  // ---- keys that are nobody's marker ----

  /** No login key's block marker is stored under this key. */
  ghost predicate Unmarked(key: string) {
    && (forall ip: string :: Marker(LoginIPKey(ip)) != key)
    && (forall email: string :: Marker(LoginEmailKey(email)) != key)
  }

  predicate EndsInBlock(s: string) {
    |s| >= 6 && s[|s| - 6..] == ":block"
  }

  /** Which a caller can see from the email. */
  lemma UnmarkedEmails(email: string)
    ensures Unmarked(LoginEmailKey(email)) <==> !EndsInBlock(email)
  {
    var key := LoginEmailKey(email);
    if EndsInBlock(email) {
      var base := email[..|email| - 6];
      assert Marker(base) == email;
      MarkerOfLoginKey(base);
      assert Marker(LoginEmailKey(base)) == key;
    } else {
      forall ip: string
        ensures Marker(LoginIPKey(ip)) != key
      {
        LoginKeysDiffer(ip, email);
      }
      forall other: string
        ensures Marker(LoginEmailKey(other)) != key
      {
        MarkerOfLoginKey(other);
        LoginKeysAreInjective(Marker(other), email);
        assert EndsInBlock(Marker(other));
      }
    }
  }

  // ---- the invariant ----

  /** How far a call has got agrees with the tickets it holds and with what the tiers allow them. */
  predicate CallFits(lim: Limits, call: Call) {
    match call.pc
    case Probe(stage) => call.TicketAt(stage).None? && EarlierStageFits(lim, call, stage)
    case Counting(stage) => call.TicketAt(stage).None? && EarlierStageFits(lim, call, stage)
    case Arm(stage) => call.TicketAt(stage).Some? && EarlierStageFits(lim, call, stage)
    case Decide(stage) => call.TicketAt(stage).Some? && EarlierStageFits(lim, call, stage)
    case Verifying => Passes(lim, call.onIp) && Passes(lim, call.onEmail)
    case Rejected => Passes(lim, call.onIp) && Passes(lim, call.onEmail)
    case Clearing(_) => Passes(lim, call.onIp) && Passes(lim, call.onEmail)
    case Done => Passes(lim, call.onIp) && Passes(lim, call.onEmail)
    case Refused => true
  }

  predicate EarlierStageFits(lim: Limits, call: Call, stage: Stage) {
    match stage
    case OnIp => call.onEmail.None?
    case OnEmail => Passes(lim, call.onIp)
  }

  predicate Passes(lim: Limits, t: Option<Ticket>) {
    t.Some? && BlockFor(lim.tiers, t.value.count) == 0
  }

  /** Two calls hold the same count of the same counter lifetime. */
  predicate Twins(s: State, key: string, a: nat, b: nat) {
    && a in s.calls && b in s.calls
    && s.calls[a].TicketOn(key).Some? && s.calls[b].TicketOn(key).Some?
    && s.calls[a].TicketOn(key).value.gen == s.calls[b].TicketOn(key).value.gen
    && s.calls[a].TicketOn(key).value.count == s.calls[b].TicketOn(key).value.count
  }

  /** On every key, marker or not: each lifetime has counted to 1 only once. */
  ghost predicate FirstsDiffer(s: State, key: string) {
    && (forall id | id in s.calls && s.calls[id].TicketOn(key).Some? ::
          1 <= s.calls[id].TicketOn(key).value.count && s.calls[id].TicketOn(key).value.gen <= |s.BirthsOf(key)|)
    && (forall a, b | Twins(s, key, a, b) && s.calls[a].TicketOn(key).value.count == 1 :: a == b)
  }

  /** A ticket lies inside its own counter lifetime and at most the counter's present value. */
  predicate TicketFits(s: State, key: string, t: Ticket) {
    var births := s.BirthsOf(key);
    && 1 <= t.gen <= |births|
    && births[t.gen - 1] <= t.at <= s.now
    && (t.gen < |births| ==> t.at <= births[t.gen])
    && (t.gen == |births| && key in s.keys ==> t.count <= s.keys[key].value)
  }

  /** On a key that is nobody's marker every ticket fits, and no two calls hold the same count of a lifetime. */
  ghost predicate KeyInv(s: State, key: string) {
    var births := s.BirthsOf(key);
    && (key in s.keys ==> births != [])
    && (births != [] ==> births[|births| - 1] <= s.now)
    && (forall id | id in s.calls && s.calls[id].TicketOn(key).Some? ::
         TicketFits(s, key, s.calls[id].TicketOn(key).value))
    && (forall a, b | Twins(s, key, a, b) :: a == b)
  }

  ghost predicate Inv(lim: Limits, s: State) {
    && (forall id | id in s.calls :: CallFits(lim, s.calls[id]))
    && (forall key :: FirstsDiffer(s, key))
    && (forall key | Unmarked(key) :: KeyInv(s, key))
  }

  /** Only an INCR writes tickets: one, of one call, on one key. */
  lemma StepKeepsTickets(lim: Limits, s: State, e: Event, key: string, c: nat)
    requires Enabled(s, e) && (forall id | id in s.calls :: CallFits(lim, s.calls[id]))
    requires c in Apply(lim, s, e).calls && Apply(lim, s, e).calls[c].TicketOn(key).Some?
    ensures (e.Increment? && c == e.id && key == s.calls[e.id].KeyAt(s.calls[e.id].pc.stage))
         || (c in s.calls && s.calls[c].TicketOn(key) == Apply(lim, s, e).calls[c].TicketOn(key))
  {
    if c in s.calls {
      LoginKeysDiffer(s.calls[c].ip, s.calls[c].email);
    }
  }

  /** The ticket an INCR writes. */
  lemma IncrementWritesTicket(s: State, id: nat)
    requires Enabled(s, Increment(id))
    ensures var key := s.calls[id].KeyAt(s.calls[id].pc.stage);
            var s' := ApplyIncrement(s, id);
            s'.calls[id].TicketOn(key) == Some(Ticket(|s'.BirthsOf(key)|, s'.keys[key].value, s.now))
  {
    LoginKeysDiffer(s.calls[id].ip, s.calls[id].email);
  }

  lemma StepKeepsCalls(lim: Limits, s: State, e: Event)
    requires Enabled(s, e) && (forall id | id in s.calls :: CallFits(lim, s.calls[id]))
    ensures forall id | id in Apply(lim, s, e).calls :: CallFits(lim, Apply(lim, s, e).calls[id])
  {
  }

  lemma StepKeepsFirsts(lim: Limits, s: State, e: Event, key: string)
    requires Inv(lim, s) && Enabled(s, e)
    ensures FirstsDiffer(Apply(lim, s, e), key)
  {
    var s' := Apply(lim, s, e);
    assert FirstsDiffer(s, key);
    if e.Increment? {
      IncrementWritesTicket(s, e.id);
    }
    forall id | id in s'.calls && s'.calls[id].TicketOn(key).Some?
      ensures 1 <= s'.calls[id].TicketOn(key).value.count && s'.calls[id].TicketOn(key).value.gen <= |s'.BirthsOf(key)|
    {
      StepKeepsTickets(lim, s, e, key, id);
    }
    forall a, b | Twins(s', key, a, b) && s'.calls[a].TicketOn(key).value.count == 1
      ensures a == b
    {
      StepKeepsTickets(lim, s, e, key, a);
      StepKeepsTickets(lim, s, e, key, b);
      if !(e.Increment? && key == s.calls[e.id].KeyAt(s.calls[e.id].pc.stage)) || (a != e.id && b != e.id) {
        assert Twins(s, key, a, b);
      }
    }
  }

  /** What a step does to the counter and the lifetimes of a key that is nobody's marker. */
  lemma StepKeepsCounter(lim: Limits, s: State, e: Event, key: string)
    requires KeyInv(s, key) && Unmarked(key) && Enabled(s, e)
    ensures var s' := Apply(lim, s, e);
            var births, births' := s.BirthsOf(key), s'.BirthsOf(key);
            && (key in s'.keys ==> births' != [])
            && (births' != [] ==> births'[|births'| - 1] <= s'.now)
            && (births' == births || births' == births + [s.now])
            && (births' == births && key in s'.keys ==> key in s.keys && s.keys[key].value <= s'.keys[key].value)
            && s.now <= s'.now
  {
  }

  lemma StepKeepsOldTicket(lim: Limits, s: State, e: Event, key: string, t: Ticket)
    requires KeyInv(s, key) && Unmarked(key) && Enabled(s, e) && TicketFits(s, key, t)
    ensures TicketFits(Apply(lim, s, e), key, t)
  {
    StepKeepsCounter(lim, s, e, key);
  }

  lemma IncrementFits(lim: Limits, s: State, id: nat)
    requires Enabled(s, Increment(id))
    requires var key := s.calls[id].KeyAt(s.calls[id].pc.stage); KeyInv(s, key) && Unmarked(key)
    ensures var key := s.calls[id].KeyAt(s.calls[id].pc.stage);
            var s' := ApplyIncrement(s, id);
            s'.calls[id].TicketOn(key).Some? && TicketFits(s', key, s'.calls[id].TicketOn(key).value)
  {
    IncrementWritesTicket(s, id);
    var key := s.calls[id].KeyAt(s.calls[id].pc.stage);
    StepKeepsCounter(lim, s, Increment(id), key);
  }

  lemma StepKeepsKey(lim: Limits, s: State, e: Event, key: string)
    requires Inv(lim, s) && Enabled(s, e) && Unmarked(key)
    ensures KeyInv(Apply(lim, s, e), key)
  {
    var s' := Apply(lim, s, e);
    assert KeyInv(s, key);
    StepKeepsCounter(lim, s, e, key);
    forall c | c in s'.calls && s'.calls[c].TicketOn(key).Some?
      ensures TicketFits(s', key, s'.calls[c].TicketOn(key).value)
    {
      StepKeepsTickets(lim, s, e, key, c);
      if c in s.calls && s.calls[c].TicketOn(key) == s'.calls[c].TicketOn(key) {
        StepKeepsOldTicket(lim, s, e, key, s.calls[c].TicketOn(key).value);
      } else {
        IncrementFits(lim, s, e.id);
      }
    }
    forall a, b | Twins(s', key, a, b)
      ensures a == b
    {
      NoNewTwins(lim, s, e, key, a, b);
    }
  }

  lemma NoNewTwins(lim: Limits, s: State, e: Event, key: string, a: nat, b: nat)
    requires Inv(lim, s) && Enabled(s, e) && Unmarked(key) && Twins(Apply(lim, s, e), key, a, b)
    ensures a == b
  {
    var s' := Apply(lim, s, e);
    assert KeyInv(s, key);
    StepKeepsTickets(lim, s, e, key, a);
    StepKeepsTickets(lim, s, e, key, b);
    if e.Increment? && key == s.calls[e.id].KeyAt(s.calls[e.id].pc.stage) {
      IncrementWritesTicket(s, e.id);
      IncrementIsNew(s, e.id);
      if a != e.id && b != e.id {
        assert Twins(s, key, a, b);
      }
    } else {
      assert Twins(s, key, a, b);
    }
  }

  /** No older ticket equals the one an INCR writes. */
  lemma IncrementIsNew(s: State, id: nat)
    requires Enabled(s, Increment(id))
    requires var key := s.calls[id].KeyAt(s.calls[id].pc.stage); KeyInv(s, key)
    ensures var key := s.calls[id].KeyAt(s.calls[id].pc.stage);
            var s' := ApplyIncrement(s, id);
            forall c | c in s.calls && s.calls[c].TicketOn(key).Some? ::
              s.calls[c].TicketOn(key).value.gen != |s'.BirthsOf(key)|
                  || s.calls[c].TicketOn(key).value.count < s'.keys[key].value
  {
    var key := s.calls[id].KeyAt(s.calls[id].pc.stage);
    forall c | c in s.calls && s.calls[c].TicketOn(key).Some?
      ensures TicketFits(s, key, s.calls[c].TicketOn(key).value)
    {
    }
  }

  lemma StepKeepsInv(lim: Limits, s: State, e: Event)
    requires Inv(lim, s) && Enabled(s, e)
    ensures Inv(lim, Apply(lim, s, e))
  {
    StepKeepsCalls(lim, s, e);
    forall key
      ensures FirstsDiffer(Apply(lim, s, e), key)
    {
      StepKeepsFirsts(lim, s, e, key);
    }
    forall key | Unmarked(key)
      ensures KeyInv(Apply(lim, s, e), key)
    {
      StepKeepsKey(lim, s, e, key);
    }
  }

  lemma {:induction false} RunKeepsInv(lim: Limits, ss: seq<State>, es: seq<Event>, i: nat)
    requires Run(lim, ss, es) && i < |ss|
    ensures Inv(lim, ss[i])
  {
    if i > 0 {
      RunKeepsInv(lim, ss, es, i - 1);
      StepKeepsInv(lim, ss[i - 1], es[i - 1]);
    }
  }

  // ---- at most m - 1 admissions in one counter lifetime ----

  /** The calls that the limiter let through on a key in one counter lifetime. */
  ghost function Admitted(lim: Limits, s: State, key: string, gen: nat): set<nat> {
    set id | id in s.calls && Passes(lim, s.calls[id].TicketOn(key)) && s.calls[id].TicketOn(key).value.gen == gen
  }

  /** A set whose elements carry distinct labels from 1 to n has at most n elements. */
  lemma {:induction false} Pigeonhole(ids: set<nat>, mark: map<nat, nat>, n: nat)
    requires ids <= mark.Keys
    requires forall id | id in ids :: 1 <= mark[id] <= n
    requires forall a, b | a in ids && b in ids && mark[a] == mark[b] :: a == b
    ensures |ids| <= n
  {
    if n == 0 {
      assert ids == {};
    } else if id :| id in ids && mark[id] == n {
      assert ids == (ids - {id}) + {id};
      Pigeonhole(ids - {id}, mark, n - 1);
    } else {
      Pigeonhole(ids, mark, n - 1);
    }
  }

  lemma AdmittedInState(lim: Limits, s: State, key: string, gen: nat, m: nat)
    requires Inv(lim, s) && (Unmarked(key) || m <= 2)
    requires 1 <= m && IsFirstBlocking(lim.tiers, m)
    ensures |Admitted(lim, s, key, gen)| <= m - 1
  {
    assert FirstsDiffer(s, key);
    var ids := Admitted(lim, s, key, gen);
    var mark := map id | id in ids :: s.calls[id].TicketOn(key).value.count;
    forall id | id in ids
      ensures 1 <= mark[id] <= m - 1
    {
      BlocksExactlyFrom(lim.tiers, m, mark[id]);
    }
    forall a, b | a in ids && b in ids && mark[a] == mark[b]
      ensures a == b
    {
      assert Twins(s, key, a, b);
    }
    Pigeonhole(ids, mark, m - 1);
  }

  /**
   A key that is nobody's marker lets through at most m - 1 calls per counter lifetime; with m <= 2 every key
   does.
   */
  lemma AdmittedPerLifetime(lim: Limits, ss: seq<State>, es: seq<Event>, i: nat, key: string, gen: nat, m: nat)
    requires Run(lim, ss, es) && i < |ss|
    requires 1 <= m && IsFirstBlocking(lim.tiers, m)
    requires Unmarked(key) || m <= 2
    ensures |Admitted(lim, ss[i], key, gen)| <= m - 1
  {
    RunKeepsInv(lim, ss, es, i);
    AdmittedInState(lim, ss[i], key, gen, m);
  }

  // ---- at most 2(m - 1) admissions in a window of one counter TTL without Reset ----

  predicate Resets(s: State, e: Event, key: string)
    requires Enabled(s, e)
  {
    e.Delete? && !e.lost && s.calls[e.id].KeyAt(s.calls[e.id].pc.stage) == key
  }

  /** The instant lies in the window of one counter TTL that begins at `from`. */
  predicate InWindow(lim: Limits, at: Time, from: Time) {
    from <= at < from + lim.counterTTL
  }

  /** No event of the window resets the key; those before and after it may. */
  ghost predicate Unreset(lim: Limits, ss: seq<State>, es: seq<Event>, key: string, from: Time, upTo: nat)
    requires Run(lim, ss, es)
  {
    forall i | 0 <= i < |es| && i < upTo && InWindow(lim, ss[i].now, from) :: !Resets(ss[i], es[i], key)
  }

  /**
   Lifetimes begin in order; one that begins in the window or later lasts at least one counter TTL from the
   window's beginning, and so, as long as the window lasts, has its counter stored.
   */
  ghost predicate WindowFits(lim: Limits, births: seq<Time>, keys: Keyspace, key: string, now: Time, from: Time) {
    && (forall g :: 0 < g < |births| ==> births[g - 1] <= births[g])
    && (forall g :: 0 < g < |births| && births[g - 1] >= from ==> births[g] >= from + lim.counterTTL)
    && (births != [] && births[|births| - 1] >= from && now < from + lim.counterTTL ==>
          && key in keys
          && (keys[key].deadline.Some? ==> keys[key].deadline.value >= from + lim.counterTTL))
  }

  ghost predicate WindowInv(lim: Limits, s: State, key: string, from: Time) {
    WindowFits(lim, s.BirthsOf(key), s.keys, key, s.now, from)
  }

  lemma CountingKeepsWindow(lim: Limits, births: seq<Time>, keys: Keyspace, key: string, now: Time, from: Time)
    requires WindowFits(lim, births, keys, key, now, from)
    requires births != [] ==> births[|births| - 1] <= now
    ensures var births' := if Live(keys, key, now) then births else births + [now];
            WindowFits(lim, births', Incr(keys, key, now), key, now, from)
  {
  }

  lemma IncrementKeepsWindow(lim: Limits, s: State, id: nat, key: string, from: Time)
    requires KeyInv(s, key) && Enabled(s, Increment(id)) && WindowInv(lim, s, key, from)
    ensures WindowInv(lim, ApplyIncrement(s, id), key, from)
  {
    if key == s.calls[id].KeyAt(s.calls[id].pc.stage) {
      CountingKeepsWindow(lim, s.BirthsOf(key), s.keys, key, s.now, from);
    }
  }

  lemma ExpireKeepsWindow(lim: Limits, s: State, e: Event, key: string, from: Time)
    requires KeyInv(s, key) && Enabled(s, e) && e.ArmExpire? && WindowInv(lim, s, key, from)
    ensures WindowInv(lim, Apply(lim, s, e), key, from)
  {
  }

  lemma StepKeepsWindow(lim: Limits, s: State, e: Event, key: string, from: Time)
    requires KeyInv(s, key) && Unmarked(key) && Enabled(s, e) && WindowInv(lim, s, key, from)
    requires InWindow(lim, s.now, from) ==> !Resets(s, e, key)
    ensures WindowInv(lim, Apply(lim, s, e), key, from)
  {
    if e.Increment? {
      IncrementKeepsWindow(lim, s, e.id, key, from);
    } else if e.ArmExpire? {
      ExpireKeepsWindow(lim, s, e, key, from);
    } else {
      OthersKeepWindow(lim, s, e, key, from);
    }
  }

  lemma OthersKeepWindow(lim: Limits, s: State, e: Event, key: string, from: Time)
    requires KeyInv(s, key) && Unmarked(key) && Enabled(s, e) && WindowInv(lim, s, key, from)
    requires !e.Increment? && !e.ArmExpire? && (InWindow(lim, s.now, from) ==> !Resets(s, e, key))
    ensures WindowInv(lim, Apply(lim, s, e), key, from)
  {
    var s' := Apply(lim, s, e);
    if key in s.keys && InWindow(lim, s.now, from) {
      UntouchedKeyStays(lim, s, e, key);
    }
    StandingKeepsWindow(lim, s.BirthsOf(key), s.keys, s'.keys, key, s.now, s'.now, from);
  }

  lemma StandingKeepsWindow(lim: Limits, births: seq<Time>, keys: Keyspace, keys': Keyspace, key: string,
                            now: Time, now': Time, from: Time)
    requires WindowFits(lim, births, keys, key, now, from) && now <= now'
    requires births != [] ==> births[|births| - 1] <= now
    requires key in keys && InWindow(lim, now, from) ==> key in keys' && keys'[key] == keys[key]
    ensures WindowFits(lim, births, keys', key, now', from)
  {
  }

  /** Only an INCR, an EXPIRE or a Reset of its own changes a key that is nobody's marker. */
  lemma UntouchedKeyStays(lim: Limits, s: State, e: Event, key: string)
    requires Unmarked(key) && Enabled(s, e) && key in s.keys && !Resets(s, e, key)
    requires e.Increment? || e.ArmExpire? ==> s.calls[e.id].KeyAt(s.calls[e.id].pc.stage) != key
    ensures key in Apply(lim, s, e).keys && Apply(lim, s, e).keys[key] == s.keys[key]
  {
  }

  lemma {:induction false} RunKeepsWindow(lim: Limits, ss: seq<State>, es: seq<Event>, i: nat, key: string,
                                          from: Time)
    requires Run(lim, ss, es) && i < |ss| && Unmarked(key) && Unreset(lim, ss, es, key, from, i)
    ensures WindowInv(lim, ss[i], key, from)
  {
    if i > 0 {
      RunKeepsWindow(lim, ss, es, i - 1, key, from);
      RunKeepsInv(lim, ss, es, i - 1);
      StepKeepsWindow(lim, ss[i - 1], es[i - 1], key, from);
    }
  }

  ghost function AdmittedWithin(lim: Limits, s: State, key: string, from: Time): set<nat> {
    set id | id in s.calls && Passes(lim, s.calls[id].TicketOn(key))
        && InWindow(lim, s.calls[id].TicketOn(key).value.at, from)
  }

  /** The number of lifetimes that began before the window. */
  function BornBefore(births: seq<Time>, from: Time): (n: nat)
    requires forall g :: 0 < g < |births| ==> births[g - 1] <= births[g]
    ensures n <= |births| && (n > 0 ==> births[n - 1] < from) && (n < |births| ==> births[n] >= from)
  {
    if births == [] || births[|births| - 1] < from then |births| else BornBefore(births[..|births| - 1], from)
  }

  lemma {:induction false} BirthsAreOrdered(births: seq<Time>, g: nat, h: nat)
    requires forall i :: 0 < i < |births| ==> births[i - 1] <= births[i]
    requires g <= h < |births|
    ensures births[g] <= births[h]
  {
    if g < h {
      BirthsAreOrdered(births, g, h - 1);
    }
  }

  /** A ticket of the window comes from the last lifetime begun before it, or from the first begun in it. */
  lemma TicketOfWindow(lim: Limits, s: State, key: string, from: Time, t: Ticket)
    requires TicketFits(s, key, t) && WindowInv(lim, s, key, from) && InWindow(lim, t.at, from)
    ensures var n := BornBefore(s.BirthsOf(key), from); n <= t.gen <= n + 1
  {
    var births := s.BirthsOf(key);
    var n := BornBefore(births, from);
    if t.gen < n {
      BirthsAreOrdered(births, t.gen, n - 1);
    } else if t.gen > n + 1 {
      BirthsAreOrdered(births, n, t.gen - 2);
    }
  }

  lemma WindowSpansTwoLifetimes(lim: Limits, s: State, key: string, from: Time) returns (n: nat)
    requires Inv(lim, s) && Unmarked(key) && WindowInv(lim, s, key, from)
    ensures AdmittedWithin(lim, s, key, from) <= Admitted(lim, s, key, n) + Admitted(lim, s, key, n + 1)
  {
    n := BornBefore(s.BirthsOf(key), from);
    assert KeyInv(s, key);
    forall id | id in AdmittedWithin(lim, s, key, from)
      ensures n <= s.calls[id].TicketOn(key).value.gen <= n + 1
    {
      TicketOfWindow(lim, s, key, from, s.calls[id].TicketOn(key).value);
    }
  }

  lemma AdmittedInWindow(lim: Limits, s: State, key: string, from: Time, m: nat)
    requires Inv(lim, s) && Unmarked(key) && WindowInv(lim, s, key, from)
    requires 1 <= m && IsFirstBlocking(lim.tiers, m)
    ensures |AdmittedWithin(lim, s, key, from)| <= 2 * (m - 1)
  {
    var n := WindowSpansTwoLifetimes(lim, s, key, from);
    AdmittedInState(lim, s, key, n, m);
    AdmittedInState(lim, s, key, n + 1, m);
    TwoSetsBound(AdmittedWithin(lim, s, key, from), Admitted(lim, s, key, n), Admitted(lim, s, key, n + 1), m - 1);
  }

  lemma TwoSetsBound(ids: set<nat>, a: set<nat>, b: set<nat>, each: nat)
    requires ids <= a + b && |a| <= each && |b| <= each
    ensures |ids| <= 2 * each
  {
    SubsetSize(ids, a + b);
    UnionSize(a, b);
  }

  lemma AdmittedPerWindow(lim: Limits, ss: seq<State>, es: seq<Event>, i: nat, key: string, from: Time, m: nat)
    requires Run(lim, ss, es) && i < |ss| && Unmarked(key) && Unreset(lim, ss, es, key, from, i)
    requires 1 <= m && IsFirstBlocking(lim.tiers, m)
    ensures |AdmittedWithin(lim, ss[i], key, from)| <= 2 * (m - 1)
  {
    RunKeepsInv(lim, ss, es, i);
    RunKeepsWindow(lim, ss, es, i, key, from);
    AdmittedInWindow(lim, ss[i], key, from, m);
  }

  lemma {:induction false} SubsetSize(a: set<nat>, b: set<nat>)
    requires a <= b
    ensures |a| <= |b|
  {
    assert b == a + (b - a);
    assert |a + (b - a)| == |a| + |b - a|;
  }

  lemma UnionSize(a: set<nat>, b: set<nat>)
    ensures |a + b| <= |a| + |b|
  {
    assert a + b == a + (b - a);
    assert |a + (b - a)| == |a| + |b - a|;
    SubsetSize(b - a, b);
  }

  // ---- what that means for Login ----

  /** Logins for one email that reached the password comparison, in one lifetime of the email counter. */
  ghost function ReachedIn(s: State, email: string, gen: nat): set<nat> {
    set id | id in s.calls && s.calls[id].Reached() && s.calls[id].email == email
          && s.calls[id].onEmail.Some? && s.calls[id].onEmail.value.gen == gen
  }

  ghost function ReachedWithin(lim: Limits, s: State, email: string, from: Time): set<nat> {
    set id | id in s.calls && s.calls[id].Reached() && s.calls[id].email == email
          && s.calls[id].onEmail.Some? && InWindow(lim, s.calls[id].onEmail.value.at, from)
  }

  lemma ReachedWasAdmitted(lim: Limits, s: State, email: string, gen: nat, from: Time)
    requires Inv(lim, s)
    ensures ReachedIn(s, email, gen) <= Admitted(lim, s, LoginEmailKey(email), gen)
    ensures ReachedWithin(lim, s, email, from) <= AdmittedWithin(lim, s, LoginEmailKey(email), from)
    ensures forall id | id in s.calls && s.calls[id].Reached() ::
              Passes(lim, s.calls[id].onIp) && Passes(lim, s.calls[id].onEmail)
  {
    forall id | id in s.calls && s.calls[id].Reached()
      ensures Passes(lim, s.calls[id].onIp) && Passes(lim, s.calls[id].onEmail)
      ensures s.calls[id].TicketOn(LoginEmailKey(s.calls[id].email)) == s.calls[id].onEmail
    {
      assert CallFits(lim, s.calls[id]);
      LoginKeysDiffer(s.calls[id].ip, s.calls[id].email);
    }
  }

  /**
   However the calls interleave, whichever commands fail and whatever IP addresses the calls come from, the
   logins for an email that does not end in ":block" reach password verification at most m - 1 times per
   lifetime of that email's counter, and at most 2(m - 1) times counted in any window of one counter TTL in
   which the email's key is not reset.  Every login there also passed the check on its own IP key.
   */
  lemma VerificationsAreBounded(lim: Limits, ss: seq<State>, es: seq<Event>, i: nat, email: string, gen: nat,
                                from: Time, m: nat)
    requires Run(lim, ss, es) && i < |ss|
    requires 1 <= m && IsFirstBlocking(lim.tiers, m)
    ensures !EndsInBlock(email) || m <= 2 ==> |ReachedIn(ss[i], email, gen)| <= m - 1
    ensures (!EndsInBlock(email) && Unreset(lim, ss, es, LoginEmailKey(email), from, i)) || m == 1 ==>
              |ReachedWithin(lim, ss[i], email, from)| <= 2 * (m - 1)
    ensures forall id | id in ss[i].calls && ss[i].calls[id].Reached() ::
              Passes(lim, ss[i].calls[id].onIp) && Passes(lim, ss[i].calls[id].onEmail)
  {
    RunKeepsInv(lim, ss, es, i);
    var key := LoginEmailKey(email);
    UnmarkedEmails(email);
    ReachedWasAdmitted(lim, ss[i], email, gen, from);
    SubsetSize(ReachedIn(ss[i], email, gen), Admitted(lim, ss[i], key, gen));
    SubsetSize(ReachedWithin(lim, ss[i], email, from), AdmittedWithin(lim, ss[i], key, from));
    if !EndsInBlock(email) || m <= 2 {
      AdmittedPerLifetime(lim, ss, es, i, key, gen, m);
    }
    if m == 1 {
      NothingPasses(lim, ss[i], key, from);
    } else if !EndsInBlock(email) && Unreset(lim, ss, es, key, from, i) {
      AdmittedPerWindow(lim, ss, es, i, key, from, m);
    }
  }

  /** When the first attempt is already blocked, no call is let through on any key. */
  lemma NothingPasses(lim: Limits, s: State, key: string, from: Time)
    requires Inv(lim, s) && IsFirstBlocking(lim.tiers, 1)
    ensures AdmittedWithin(lim, s, key, from) == {}
  {
    assert FirstsDiffer(s, key);
    forall id | id in s.calls && s.calls[id].TicketOn(key).Some?
      ensures !Passes(lim, s.calls[id].TicketOn(key))
    {
      BlocksExactlyFrom(lim.tiers, 1, s.calls[id].TicketOn(key).value.count);
    }
  }

  // ---- a lost EXPIRE ----

  /**
   The email's counter has no deadline and its next count reaches the threshold m; no call for the email can
   still give it a deadline, is yet to hear that it passed, or has passed and may still reset it.
   */
  ghost predicate Stuck(s: State, email: string, m: nat) {
    var key := LoginEmailKey(email);
    && key in s.keys && s.keys[key].deadline.None? && s.keys[key].value + 1 >= m
    && forall id | id in s.calls && s.calls[id].email == email :: Hopeless(s.calls[id], m)
  }

  predicate Hopeless(call: Call, m: nat) {
    call.pc != Arm(OnEmail) && call.pc != Verifying && call.pc != Clearing(OnEmail)
    && (call.pc == Decide(OnEmail) && call.onEmail.Some? ==> call.onEmail.value.count >= m)
  }

  /** A call of a stuck email stays hopeless, whatever it does next. */
  lemma CallStaysHopeless(lim: Limits, s: State, e: Event, email: string, m: nat, id: nat)
    requires Enabled(s, e) && Stuck(s, email, m) && IsFirstBlocking(lim.tiers, m)
    requires id in Apply(lim, s, e).calls && Apply(lim, s, e).calls[id].email == email
    ensures Hopeless(Apply(lim, s, e).calls[id], m)
  {
    if e.Finish? && s.calls[e.id].pc == Decide(OnEmail) {
      BlocksExactlyFrom(lim.tiers, m, s.calls[e.id].onEmail.value.count);
    }
  }

  lemma StuckCounterStays(lim: Limits, s: State, e: Event, email: string, m: nat)
    requires Unmarked(LoginEmailKey(email)) && Enabled(s, e) && Stuck(s, email, m)
    ensures var key, s' := LoginEmailKey(email), Apply(lim, s, e);
            key in s'.keys && s'.keys[key].deadline.None? && s'.keys[key].value + 1 >= m
  {
    var key := LoginEmailKey(email);
    if !(e.Increment? && s.calls[e.id].KeyAt(s.calls[e.id].pc.stage) == key) {
      NobodyExpiresStuck(s, e, email, m);
      UntouchedKeyStays(lim, s, e, key);
    }
  }

  lemma NobodyExpiresStuck(s: State, e: Event, email: string, m: nat)
    requires Enabled(s, e) && Stuck(s, email, m)
    ensures !Resets(s, e, LoginEmailKey(email))
    ensures e.ArmExpire? ==> s.calls[e.id].KeyAt(s.calls[e.id].pc.stage) != LoginEmailKey(email)
  {
    if e.ArmExpire? || e.Delete? {
      var call := s.calls[e.id];
      LoginKeysDiffer(call.ip, email);
      LoginKeysAreInjective(call.email, email);
      assert call.email == email ==> Hopeless(call, m);
    }
  }

  lemma StepKeepsStuck(lim: Limits, s: State, e: Event, email: string, m: nat)
    requires Enabled(s, e) && !EndsInBlock(email) && Stuck(s, email, m) && IsFirstBlocking(lim.tiers, m)
    ensures Stuck(Apply(lim, s, e), email, m)
  {
    UnmarkedEmails(email);
    StuckCounterStays(lim, s, e, email, m);
    forall id | id in Apply(lim, s, e).calls && Apply(lim, s, e).calls[id].email == email
      ensures Hopeless(Apply(lim, s, e).calls[id], m)
    {
      CallStaysHopeless(lim, s, e, email, m, id);
    }
  }

  /**
   A lost EXPIRE locks an email: from a stuck state on, no login for it ever reaches password verification
   again, and only such a login could have reset the counter.
   */
  lemma {:induction false} LostExpireLocks(lim: Limits, ss: seq<State>, es: seq<Event>, i: nat, j: nat,
                                           email: string, m: nat)
    requires Run(lim, ss, es) && i <= j < |ss| && IsFirstBlocking(lim.tiers, m)
    requires !EndsInBlock(email) && Stuck(ss[i], email, m)
    ensures Stuck(ss[j], email, m)
    ensures forall id | id in ss[j].calls && ss[j].calls[id].email == email :: !ss[j].calls[id].pc.Verifying?
  {
    if i < j {
      LostExpireLocks(lim, ss, es, i, j - 1, email, m);
      StepKeepsStuck(lim, ss[j - 1], es[j - 1], email, m);
    }
  }
}
