/**
 Runs that show the limiter's bounds to be exact.  The counter of an email that ends in ":block" is the block
 marker of the email without that ending, so every block of the shorter email writes it back to 1, and any
 number of logins for the longer one get through.  And a lost EXPIRE can lock an email.
 */
module ExactBounds {
  import opened Types
  import opened RateLimiter
  import opened Escalation
  import opened RateProtocol

  // ---- runs, one event at a time ----

  ghost predicate NeverReset(lim: Limits, ss: seq<State>, es: seq<Event>, key: string)
    requires Run(lim, ss, es)
  {
    forall i | 0 <= i < |es| :: !Resets(ss[i], es[i], key)
  }

  /** Some run, without a Reset of the key, ends in this state. */
  ghost predicate Reachable(lim: Limits, s: State, key: string) {
    exists ss, es :: Run(lim, ss, es) && NeverReset(lim, ss, es, key) && ss[|es|] == s
  }

  lemma Step(lim: Limits, s: State, e: Event, key: string) returns (s': State)
    requires Reachable(lim, s, key) && Enabled(s, e) && !Resets(s, e, key)
    ensures s' == Apply(lim, s, e) && Reachable(lim, s', key)
  {
    s' := Apply(lim, s, e);
    var ss, es :| Run(lim, ss, es) && NeverReset(lim, ss, es, key) && ss[|es|] == s;
    var ss', es' := ss + [s'], es + [e];
    forall i | 0 <= i < |es'|
      ensures Enabled(ss'[i], es'[i]) && ss'[i + 1] == Apply(lim, ss'[i], es'[i]) && !Resets(ss'[i], es'[i], key)
    {
      if i < |es| {
        assert ss'[i] == ss[i] && ss'[i + 1] == ss[i + 1] && es'[i] == es[i];
      }
    }
    assert Run(lim, ss', es') && NeverReset(lim, ss', es', key) && ss'[|es'|] == s';
  }

  const NOTHING := State(0, map[], map[], map[])

  lemma NothingIsReachable(lim: Limits, key: string)
    ensures Reachable(lim, NOTHING, key)
  {
    var ss: seq<State>, es: seq<Event> := [NOTHING], [];
    assert Run(lim, ss, es) && NeverReset(lim, ss, es, key) && ss[|es|] == NOTHING;
  }

  // ---- a fresh IP address for every call ----

  function Ip(i: nat): string {
    seq(i, _ => 'i')
  }

  function IpKeyOf(i: nat): string {
    LoginIPKey(Ip(i))
  }

  lemma FreshIps(i: nat, j: nat, email: string)
    ensures IpKeyOf(i) == IpKeyOf(j) ==> i == j
    ensures Marker(IpKeyOf(i)) != IpKeyOf(j)
    ensures Marker(LoginEmailKey(email)) != IpKeyOf(j)
    ensures IpKeyOf(i) != LoginEmailKey(email) && Marker(IpKeyOf(i)) != LoginEmailKey(email)
  {
    LoginKeysDiffer(Ip(i), email);
    LoginKeysDiffer(Ip(j), email);
    LoginKeysAreInjective(Ip(i), Ip(j));
    assert |Ip(i)| == i && |Ip(j)| == j;
    var key, marker := IpKeyOf(j), Marker(IpKeyOf(i));
    assert marker[|marker| - 1] == 'k';
    assert key[|key| - 1] == if j == 0 then ':' else 'i';
  }

  /** Only the two email keys and the IP keys below n are in use. */
  ghost predicate Tidy(s: State, n: nat, email: string, other: string) {
    && s.now == 0
    && (forall id: nat :: id in s.calls <==> id < n)
    && forall key | key in s.keys ::
         key in {LoginEmailKey(email), LoginEmailKey(other)} || exists i :: 0 <= i < n && key == IpKeyOf(i)
  }

  lemma TidyIsFree(s: State, n: nat, email: string, other: string)
    requires Tidy(s, n, email, other)
    ensures IpKeyOf(n) !in s.keys && Marker(IpKeyOf(n)) !in s.keys
  {
    FreshIps(n, n, email);
    FreshIps(n, n, other);
    forall i | 0 <= i < n
      ensures IpKeyOf(n) != IpKeyOf(i) && Marker(IpKeyOf(n)) != IpKeyOf(i)
    {
      FreshIps(n, i, email);
    }
  }

  /** The limits leave room for an attempt. */
  ghost predicate Roomy(lim: Limits, m: nat) {
    2 <= m && IsFirstBlocking(lim.tiers, m) && lim.counterTTL > 0
  }

  // ---- one call up to the INCR of its email key ----

  /** The state after a call on a fresh IP address has passed the IP check and come as far as `pc`. */
  function Passed(lim: Limits, s: State, id: nat, email: string, pc: Pc): State {
    var ipKey, births := IpKeyOf(id), s.BirthsOf(IpKeyOf(id)) + [s.now];
    State(s.now,
          s.keys[ipKey := Stored(1, Some(s.now + lim.counterTTL))],
          s.births[ipKey := births],
          s.calls[id := Call(Ip(id), email, pc, Some(Ticket(|births|, 1, s.now)), None)])
  }

  /** And after it has counted on its email key. */
  function Joined(lim: Limits, s: State, id: nat, email: string): State {
    ApplyIncrement(Passed(lim, s, id, email, Counting(OnEmail)), id)
  }

  lemma PassIp(lim: Limits, s: State, id: nat, email: string, key: string, m: nat) returns (s': State)
    requires Reachable(lim, s, key) && Roomy(lim, m)
    requires id !in s.calls && IpKeyOf(id) !in s.keys && Marker(IpKeyOf(id)) !in s.keys
    ensures Reachable(lim, s', key)
    ensures s' == Passed(lim, s, id, email, Probe(OnEmail))
  {
    var s1 := CountIp(lim, s, id, email, key);
    s' := LeaveIp(lim, s1, id, key, m);
  }

  lemma LeaveIp(lim: Limits, s: State, id: nat, key: string, m: nat) returns (s': State)
    requires Reachable(lim, s, key) && Roomy(lim, m)
    requires id in s.calls && s.calls[id].pc == Arm(OnIp) && s.calls[id].onIp.Some? && s.calls[id].onIp.value.count == 1
    requires var ipKey := s.calls[id].KeyAt(OnIp); ipKey in s.keys && s.keys[ipKey] == Stored(1, None)
    ensures Reachable(lim, s', key)
    ensures s' == s.(keys := s.keys[s.calls[id].KeyAt(OnIp) := Stored(1, Some(s.now + lim.counterTTL))],
                     calls := s.calls[id := s.calls[id].(pc := Probe(OnEmail))])
  {
    var s1 := Step(lim, s, ArmExpire(id, false), key);
    BlocksExactlyFrom(lim.tiers, m, 1);
    s' := Step(lim, s1, Finish(id), key);
  }

  lemma CountIp(lim: Limits, s: State, id: nat, email: string, key: string) returns (s': State)
    requires Reachable(lim, s, key)
    requires id !in s.calls && IpKeyOf(id) !in s.keys && Marker(IpKeyOf(id)) !in s.keys
    ensures Reachable(lim, s', key)
    ensures var births := s.BirthsOf(IpKeyOf(id)) + [s.now];
            s' == State(s.now,
                        s.keys[IpKeyOf(id) := Stored(1, None)],
                        s.births[IpKeyOf(id) := births],
                        s.calls[id := Call(Ip(id), email, Arm(OnIp), Some(Ticket(|births|, 1, s.now)), None)])
  {
    var s1 := Step(lim, s, Start(id, Ip(id), email), key);
    var s2 := Step(lim, s1, Ask(id), key);
    s' := Step(lim, s2, Increment(id), key);
  }

  lemma Join(lim: Limits, s: State, id: nat, email: string, key: string, m: nat) returns (s': State)
    requires Reachable(lim, s, key) && Roomy(lim, m)
    requires id !in s.calls && IpKeyOf(id) !in s.keys && Marker(IpKeyOf(id)) !in s.keys
    requires Marker(LoginEmailKey(email)) !in s.keys
    ensures s' == Joined(lim, s, id, email) && Reachable(lim, s', key)
  {
    var s1 := PassIp(lim, s, id, email, key, m);
    FreshIps(id, id, email);
    s' := CountEmail(lim, s1, id, key);
    var counting := s1.(calls := s1.calls[id := s1.calls[id].(pc := Counting(OnEmail))]);
    assert counting == Passed(lim, s, id, email, Counting(OnEmail));
  }

  lemma CountEmail(lim: Limits, s: State, id: nat, key: string) returns (s': State)
    requires Reachable(lim, s, key)
    requires id in s.calls && s.calls[id].pc == Probe(OnEmail) && Marker(s.calls[id].KeyAt(OnEmail)) !in s.keys
    ensures s' == ApplyIncrement(s.(calls := s.calls[id := s.calls[id].(pc := Counting(OnEmail))]), id)
    ensures Reachable(lim, s', key)
  {
    var s1 := Step(lim, s, Ask(id), key);
    s' := Step(lim, s1, Increment(id), key);
  }

  // ---- a queue of calls about to be refused ----

  /** n calls for the email have counted, one after another, and none has heard its verdict. */
  ghost predicate Queued(s: State, n: nat, email: string) {
    var key := LoginEmailKey(email);
    && Tidy(s, n, email, email)
    && s.BirthsOf(Marker(key)) == []
    && (if n == 0 then key !in s.keys else key in s.keys && s.keys[key] == Stored(n, None))
    && forall id | id in s.calls ::
         && s.calls[id].email == email && s.calls[id].onEmail.Some? && s.calls[id].onEmail.value.count == id + 1
         && (id > 0 ==> s.calls[id].pc == Decide(OnEmail))
  }

  lemma JoinedQueue(lim: Limits, s: State, n: nat, email: string)
    requires Queued(s, n, email)
    ensures Queued(Joined(lim, s, n, email), n + 1, email)
  {
    FreshIps(n, n, email);
    var s', key := Joined(lim, s, n, email), LoginEmailKey(email);
    assert forall k | k in s'.keys :: k == key || k == IpKeyOf(n) || k in s.keys;
    assert Tidy(s', n + 1, email, email);
    assert s'.BirthsOf(Marker(key)) == [];
    assert s'.keys[key] == Stored(n + 1, None);
    forall id | id in s'.calls
      ensures s'.calls[id].email == email && s'.calls[id].onEmail.Some? && s'.calls[id].onEmail.value.count == id + 1
      ensures id > 0 ==> s'.calls[id].pc == Decide(OnEmail)
    {
      assert id == n || id in s.calls;
    }
  }

  lemma {:induction false} QueueUp(lim: Limits, n: nat, email: string, key: string, m: nat) returns (s: State)
    requires Roomy(lim, m)
    ensures Queued(s, n, email) && Reachable(lim, s, key)
  {
    if n == 0 {
      NothingIsReachable(lim, key);
      s := NOTHING;
    } else {
      var before := QueueUp(lim, n - 1, email, key, m);
      s := QueueOneMore(lim, before, n - 1, email, key, m);
    }
  }

  lemma QueueOneMore(lim: Limits, s: State, n: nat, email: string, key: string, m: nat) returns (s': State)
    requires Roomy(lim, m) && Queued(s, n, email) && Reachable(lim, s, key)
    ensures Queued(s', n + 1, email) && Reachable(lim, s', key)
  {
    TidyIsFree(s, n, email, email);
    MarkerIsAbsent(s, n, email, email, email);
    s' := Join(lim, s, n, email, key, m);
    JoinedQueue(lim, s, n, email);
  }

  /** The marker of an email key is in use only if it is one of the two. */
  lemma MarkerIsAbsent(s: State, n: nat, email: string, other: string, of: string)
    requires Tidy(s, n, email, other)
    requires Marker(LoginEmailKey(of)) !in {LoginEmailKey(email), LoginEmailKey(other)}
    ensures Marker(LoginEmailKey(of)) !in s.keys
  {
    forall i | 0 <= i < n
      ensures Marker(LoginEmailKey(of)) != IpKeyOf(i)
    {
      FreshIps(i, i, of);
    }
  }

  // ---- round after round, one refused and one let through ----

  /** Of `size` queued calls, r have been refused, and r logins for the marker's email have got through. */
  ghost predicate Rounds(s: State, size: nat, r: nat, email: string, m: nat) {
    var marked := Marker(email);
    && Tidy(s, size + r, email, marked)
    && s.BirthsOf(LoginEmailKey(marked)) == []
    && (forall id: nat | m - 1 + r <= id < size ::
          s.calls[id].email == email && s.calls[id].pc == Decide(OnEmail)
          && s.calls[id].onEmail.Some? && s.calls[id].onEmail.value.count == id + 1)
    && (forall id: nat | size <= id < size + r ::
          s.calls[id].email == marked && s.calls[id].pc == Verifying && s.calls[id].onEmail == Some(Ticket(0, 2, 0)))
  }

  /** The next queued call hears that it is blocked and writes the marker: the other email's count is 1. */
  lemma Refuse(lim: Limits, s: State, size: nat, r: nat, email: string, m: nat) returns (s': State)
    requires Roomy(lim, m) && m - 1 + r < size
    requires Rounds(s, size, r, email, m) && Reachable(lim, s, LoginEmailKey(Marker(email)))
    ensures Reachable(lim, s', LoginEmailKey(Marker(email))) && Rounds(s', size, r, email, m + 1)
    ensures var key := LoginEmailKey(Marker(email)); Live(s'.keys, key, 0) && s'.keys[key].value == 1
  {
    var p := m - 1 + r;
    MarkerOfLoginKey(email);
    BlocksExactlyFrom(lim.tiers, m, p + 1);
    assert p in s.calls;
    s' := Step(lim, s, Finish(p), LoginEmailKey(Marker(email)));
  }

  /** A login for the marker's email then counts to 2 and is let through. */
  lemma LetThrough(lim: Limits, s: State, size: nat, r: nat, email: string, m: nat) returns (s': State)
    requires Roomy(lim, m) && 3 <= m && Rounds(s, size, r, email, m + 1)
    requires var key := LoginEmailKey(Marker(email));
             Reachable(lim, s, key) && Live(s.keys, key, 0) && s.keys[key].value == 1
    ensures Reachable(lim, s', LoginEmailKey(Marker(email))) && Rounds(s', size, r + 1, email, m)
  {
    var marked, id := Marker(email), size + r;
    var key := LoginEmailKey(marked);
    TidyIsFree(s, id, email, marked);
    MarkersDiffer(email);
    MarkerIsAbsent(s, id, email, marked, marked);
    var joined := Join(lim, s, id, marked, key, m);
    BlocksExactlyFrom(lim.tiers, m, 2);
    s' := Step(lim, joined, Finish(id), key);
    NextRound(lim, s, s', size, r, email, m);
  }

  lemma NextRound(lim: Limits, s: State, s': State, size: nat, r: nat, email: string, m: nat)
    requires Rounds(s, size, r, email, m + 1)
    requires var key := LoginEmailKey(Marker(email)); Live(s.keys, key, 0) && s.keys[key].value == 1
    requires var joined := Joined(lim, s, size + r, Marker(email));
             s' == joined.(calls := joined.calls[size + r := joined.calls[size + r].(pc := Verifying)])
    ensures Rounds(s', size, r + 1, email, m)
  {
    FreshIps(size + r, size + r, Marker(email));
    assert forall k | k in s'.keys :: k == LoginEmailKey(Marker(email)) || k == IpKeyOf(size + r) || k in s.keys;
  }

  lemma MarkersDiffer(email: string)
    ensures Marker(LoginEmailKey(Marker(email))) !in {LoginEmailKey(email), LoginEmailKey(Marker(email))}
  {
  }

  lemma {:induction false} RunRounds(lim: Limits, size: nat, r: nat, email: string, m: nat) returns (s: State)
    requires Roomy(lim, m) && 3 <= m && m - 1 + r <= size
    ensures Rounds(s, size, r, email, m) && Reachable(lim, s, LoginEmailKey(Marker(email)))
  {
    if r == 0 {
      s := QueueUp(lim, size, email, LoginEmailKey(Marker(email)), m);
      MarkerOfLoginKey(email);
    } else {
      var before := RunRounds(lim, size, r - 1, email, m);
      var refused := Refuse(lim, before, size, r - 1, email, m);
      s := LetThrough(lim, refused, size, r - 1, email, m);
    }
  }

  // ---- any number get through ----

  function Range(from: nat, n: nat): (ids: set<nat>)
    ensures |ids| == n && forall id: nat :: id in ids <==> from <= id < from + n
  {
    if n == 0 then {} else Range(from, n - 1) + {from + n - 1}
  }

  /**
   With two free attempts or more, any number of logins for email + ":block" get through in no time and in one
   lifetime.
   */
  lemma MarkersAreUnbounded(lim: Limits, email: string, m: nat, n: nat) returns (s: State)
    requires Roomy(lim, m) && 3 <= m
    ensures Reachable(lim, s, LoginEmailKey(Marker(email)))
    ensures |ReachedIn(s, Marker(email), 0)| >= n && |ReachedWithin(lim, s, Marker(email), 0)| >= n
  {
    var size := m - 1 + n;
    s := RunRounds(lim, size, n, email, m);
    SubsetSize(Range(size, n), ReachedIn(s, Marker(email), 0));
    SubsetSize(Range(size, n), ReachedWithin(lim, s, Marker(email), 0));
  }

  // ---- round after round, one login of the email clears the marker ----

  /**
   Of the calls so far, n even ones were logins for the email that have succeeded and deleted its marker, and
   n odd ones were logins for the marker's email that have got through.
   */
  ghost predicate Cleared(s: State, n: nat, email: string) {
    var marked := Marker(email);
    && Tidy(s, 2 * n, email, marked)
    && LoginEmailKey(email) !in s.keys && LoginEmailKey(marked) !in s.keys
    && forall i: nat | i < n ::
         var call := s.calls[2 * i + 1];
         call.email == marked && call.pc == Verifying && call.onEmail.Some? && call.onEmail.value.at == 0
  }

  /** A first Check of a fresh email key that arms its counter and passes. */
  lemma PassEmail(lim: Limits, s: State, id: nat, email: string, key: string, m: nat) returns (s': State)
    requires Roomy(lim, m) && Reachable(lim, s, key)
    requires id !in s.calls && IpKeyOf(id) !in s.keys && Marker(IpKeyOf(id)) !in s.keys
    requires LoginEmailKey(email) !in s.keys && Marker(LoginEmailKey(email)) !in s.keys
    ensures Reachable(lim, s', key) && s' == Let(lim, s, id, email)
  {
    var joined := Join(lim, s, id, email, key, m);
    FirstCountArms(lim, s, id, email);
    s' := LeaveEmail(lim, joined, id, key, m);
  }

  lemma FirstCountArms(lim: Limits, s: State, id: nat, email: string)
    requires LoginEmailKey(email) !in s.keys
    ensures var joined := Joined(lim, s, id, email);
            && joined.calls[id].pc == Arm(OnEmail) && joined.calls[id].email == email
            && joined.calls[id].onEmail.Some? && joined.calls[id].onEmail.value.count == 1
            && joined.keys[LoginEmailKey(email)] == Stored(1, None)
  {
    FreshIps(id, id, email);
  }

  lemma LeaveEmail(lim: Limits, s: State, id: nat, key: string, m: nat) returns (s': State)
    requires Reachable(lim, s, key) && Roomy(lim, m)
    requires id in s.calls && s.calls[id].pc == Arm(OnEmail)
    requires s.calls[id].onEmail.Some? && s.calls[id].onEmail.value.count == 1
    requires var emailKey := s.calls[id].KeyAt(OnEmail); emailKey in s.keys && s.keys[emailKey] == Stored(1, None)
    ensures Reachable(lim, s', key)
    ensures s' == s.(keys := s.keys[s.calls[id].KeyAt(OnEmail) := Stored(1, Some(s.now + lim.counterTTL))],
                     calls := s.calls[id := s.calls[id].(pc := Verifying)])
  {
    var armed := Step(lim, s, ArmExpire(id, false), key);
    BlocksExactlyFrom(lim.tiers, m, 1);
    s' := Step(lim, armed, Finish(id), key);
  }

  function Let(lim: Limits, s: State, id: nat, email: string): State {
    var joined, key := Joined(lim, s, id, email), LoginEmailKey(email);
    joined.(keys := joined.keys[key := Stored(1, Some(s.now + lim.counterTTL))],
            calls := joined.calls[id := joined.calls[id].(pc := Verifying)])
  }

  lemma ClearOnce(lim: Limits, s: State, n: nat, email: string, m: nat) returns (s': State)
    requires Roomy(lim, m) && Cleared(s, n, email) && Reachable(lim, s, LoginEmailKey(Marker(email)))
    ensures Cleared(s', n + 1, email) && Reachable(lim, s', LoginEmailKey(Marker(email)))
  {
    var key := LoginEmailKey(Marker(email));
    TidyIsFree(s, 2 * n, email, Marker(email));
    MarkerOfLoginKey(email);
    var first := PassEmail(lim, s, 2 * n, email, key, m);
    FirstPassed(lim, s, first, n, email);
    var second := PassEmail(lim, first, 2 * n + 1, Marker(email), key, m);
    assert second.calls[2 * n] == first.calls[2 * n];
    s' := SucceedAndDelete(lim, second, 2 * n, email, m);
    BothPassed(lim, s, first, second, s', n, email);
  }

  /** The login for the email succeeds, and its first Reset deletes the counter and the marker. */
  lemma SucceedAndDelete(lim: Limits, s: State, id: nat, email: string, m: nat) returns (s': State)
    requires Reachable(lim, s, LoginEmailKey(Marker(email)))
    requires id in s.calls && s.calls[id].email == email && s.calls[id].pc == Verifying
    ensures Reachable(lim, s', LoginEmailKey(Marker(email)))
    ensures s'.now == s.now && s'.keys == s.keys - {LoginEmailKey(email), LoginEmailKey(Marker(email))}
    ensures s'.calls.Keys == s.calls.Keys && forall c | c in s.calls && c != id :: s'.calls[c] == s.calls[c]
  {
    MarkerOfLoginKey(email);
    LoginKeysAreInjective(email, Marker(email));
    var accepted := Step(lim, s, Accept(id), LoginEmailKey(Marker(email)));
    s' := Step(lim, accepted, Delete(id, false), LoginEmailKey(Marker(email)));
  }

  lemma {:induction false} ClearRepeatedly(lim: Limits, n: nat, email: string, m: nat) returns (s: State)
    requires Roomy(lim, m)
    ensures Cleared(s, n, email) && Reachable(lim, s, LoginEmailKey(Marker(email)))
  {
    if n == 0 {
      NothingIsReachable(lim, LoginEmailKey(Marker(email)));
      s := NOTHING;
    } else {
      var before := ClearRepeatedly(lim, n - 1, email, m);
      s := ClearOnce(lim, before, n - 1, email, m);
    }
  }

  lemma FirstPassed(lim: Limits, s: State, first: State, n: nat, email: string)
    requires Cleared(s, n, email) && first == Let(lim, s, 2 * n, email)
    ensures Tidy(first, 2 * n + 1, email, Marker(email))
    ensures LoginEmailKey(Marker(email)) !in first.keys && Marker(LoginEmailKey(Marker(email))) !in first.keys
    ensures IpKeyOf(2 * n + 1) !in first.keys && Marker(IpKeyOf(2 * n + 1)) !in first.keys
    ensures first.calls == s.calls[2 * n := first.calls[2 * n]]
    ensures first.calls[2 * n].email == email && first.calls[2 * n].pc == Verifying
  {
    FirstIsTidy(lim, s, first, n, email);
    TidyIsFree(first, 2 * n + 1, email, Marker(email));
    MarkersDiffer(email);
    MarkerIsAbsent(first, 2 * n + 1, email, Marker(email), Marker(email));
  }

  lemma FirstIsTidy(lim: Limits, s: State, first: State, n: nat, email: string)
    requires Cleared(s, n, email) && first == Let(lim, s, 2 * n, email)
    ensures Tidy(first, 2 * n + 1, email, Marker(email)) && LoginEmailKey(Marker(email)) !in first.keys
  {
    FreshIps(2 * n, 2 * n, email);
    FreshIps(2 * n, 2 * n, Marker(email));
    LoginKeysAreInjective(email, Marker(email));
    assert forall k | k in first.keys :: k == LoginEmailKey(email) || k == IpKeyOf(2 * n) || k in s.keys;
  }

  lemma BothPassed(lim: Limits, s: State, first: State, second: State, s': State, n: nat, email: string)
    requires Cleared(s, n, email) && Tidy(first, 2 * n + 1, email, Marker(email))
    requires first.calls == s.calls[2 * n := first.calls[2 * n]]
    requires second == Let(lim, first, 2 * n + 1, Marker(email))
    requires s'.now == 0 && s'.keys == second.keys - {LoginEmailKey(email), LoginEmailKey(Marker(email))}
    requires s'.calls.Keys == second.calls.Keys
    requires forall c | c in second.calls && c != 2 * n :: s'.calls[c] == second.calls[c]
    ensures Cleared(s', n + 1, email)
  {
    SecondPassed(lim, first, n, Marker(email));
    StaysTidy(first, second, s', n, email);
    forall i: nat | i < n + 1
      ensures 2 * i + 1 in s'.calls && 2 * i + 1 != 2 * n
      ensures i < n ==> s'.calls[2 * i + 1] == s.calls[2 * i + 1]
      ensures i == n ==> s'.calls[2 * i + 1] == second.calls[2 * n + 1]
    {
      assert 2 * i + 1 in second.calls;
    }
  }

  /** What the marker's login leaves behind. */
  lemma SecondPassed(lim: Limits, s: State, n: nat, marked: string)
    requires s.now == 0
    ensures var second := Let(lim, s, 2 * n + 1, marked);
            && second.calls == s.calls[2 * n + 1 := second.calls[2 * n + 1]]
            && second.calls[2 * n + 1].email == marked && second.calls[2 * n + 1].pc == Verifying
            && second.calls[2 * n + 1].onEmail.Some? && second.calls[2 * n + 1].onEmail.value.at == 0
            && second.keys.Keys == s.keys.Keys + {IpKeyOf(2 * n + 1), LoginEmailKey(marked)}
  {
  }

  lemma StaysTidy(first: State, second: State, s': State, n: nat, email: string)
    requires Tidy(first, 2 * n + 1, email, Marker(email))
    requires second.keys.Keys == first.keys.Keys + {IpKeyOf(2 * n + 1), LoginEmailKey(Marker(email))}
    requires second.calls.Keys == first.calls.Keys + {2 * n + 1}
    requires s'.now == 0 && s'.keys == second.keys - {LoginEmailKey(email), LoginEmailKey(Marker(email))}
    requires s'.calls.Keys == second.calls.Keys
    ensures Tidy(s', 2 * (n + 1), email, Marker(email))
  {
    assert forall k | k in s'.keys :: k == IpKeyOf(2 * n + 1) || k in first.keys;
  }

  function Odd(n: nat): (ids: set<nat>)
    ensures |ids| == n && forall id: nat :: id in ids <==> id % 2 == 1 && id < 2 * n
  {
    if n == 0 then {} else Odd(n - 1) + {2 * n - 1}
  }

  /** With one free attempt or more, any number of logins for email + ":block" get through in no time. */
  lemma WindowsAreUnbounded(lim: Limits, email: string, m: nat, n: nat) returns (s: State)
    requires Roomy(lim, m)
    ensures Reachable(lim, s, LoginEmailKey(Marker(email))) && |ReachedWithin(lim, s, Marker(email), 0)| >= n
  {
    s := ClearRepeatedly(lim, n, email, m);
    forall id | id in Odd(n)
      ensures id in ReachedWithin(lim, s, Marker(email), 0)
    {
      assert id == 2 * (id / 2) + 1 && id / 2 < n;
    }
    SubsetSize(Odd(n), ReachedWithin(lim, s, Marker(email), 0));
  }

  // ---- the bounds are exact ----

  /** In every run at most m - 1 logins for the email reach verification per counter lifetime. */
  ghost predicate LifetimeBound(lim: Limits, email: string, m: nat) {
    forall ss, es, i: nat, gen: nat | Run(lim, ss, es) && i < |ss| :: |ReachedIn(ss[i], email, gen)| <= m - 1
  }

  /** In every run at most 2(m - 1) do in any window of one counter TTL in which the email's key is not reset. */
  ghost predicate WindowBound(lim: Limits, email: string, m: nat) {
    forall ss, es, i: nat, from: Time |
      Run(lim, ss, es) && i < |ss| && Unreset(lim, ss, es, LoginEmailKey(email), from, i) ::
      |ReachedWithin(lim, ss[i], email, from)| <= 2 * (m - 1)
  }

  /**
   The bounds hold for an email in all runs if and only if it does not end in ":block", or so few attempts are
   free that the other email's blocks and Resets cannot help: one at most per lifetime, none at all per window.
   */
  lemma BoundsAreExact(lim: Limits, email: string, m: nat)
    requires 1 <= m && IsFirstBlocking(lim.tiers, m) && lim.counterTTL > 0
    ensures LifetimeBound(lim, email, m) <==> !EndsInBlock(email) || m <= 2
    ensures WindowBound(lim, email, m) <==> !EndsInBlock(email) || m == 1
  {
    BoundsHold(lim, email, m);
    if EndsInBlock(email) && m >= 2 {
      WindowBoundFails(lim, email, m);
    }
    if EndsInBlock(email) && m >= 3 {
      LifetimeBoundFails(lim, email, m);
    }
  }

  lemma LifetimeBoundFails(lim: Limits, email: string, m: nat)
    requires Roomy(lim, m) && 3 <= m && EndsInBlock(email)
    ensures !LifetimeBound(lim, email, m)
  {
    var base := email[..|email| - 6];
    assert Marker(base) == email;
    var s := MarkersAreUnbounded(lim, base, m, m);
    var ss, es :| Run(lim, ss, es) && NeverReset(lim, ss, es, LoginEmailKey(email)) && ss[|es|] == s;
    assert |ReachedIn(ss[|es|], email, 0)| > m - 1;
  }

  lemma WindowBoundFails(lim: Limits, email: string, m: nat)
    requires Roomy(lim, m) && EndsInBlock(email)
    ensures !WindowBound(lim, email, m)
  {
    var base := email[..|email| - 6];
    assert Marker(base) == email;
    var s := WindowsAreUnbounded(lim, base, m, 2 * m);
    var ss, es :| Run(lim, ss, es) && NeverReset(lim, ss, es, LoginEmailKey(email)) && ss[|es|] == s;
    assert Unreset(lim, ss, es, LoginEmailKey(email), 0, |es|);
    assert |ReachedWithin(lim, ss[|es|], email, 0)| > 2 * (m - 1);
  }

  lemma BoundsHold(lim: Limits, email: string, m: nat)
    requires 1 <= m && IsFirstBlocking(lim.tiers, m)
    ensures !EndsInBlock(email) || m <= 2 ==> LifetimeBound(lim, email, m)
    ensures !EndsInBlock(email) || m == 1 ==> WindowBound(lim, email, m)
  {
    forall ss, es, i: nat, gen: nat | Run(lim, ss, es) && i < |ss| && (!EndsInBlock(email) || m <= 2)
      ensures |ReachedIn(ss[i], email, gen)| <= m - 1
    {
      VerificationsAreBounded(lim, ss, es, i, email, gen, 0, m);
    }
    forall ss, es, i: nat, from: Time |
      Run(lim, ss, es) && i < |ss| && Unreset(lim, ss, es, LoginEmailKey(email), from, i)
          && (!EndsInBlock(email) || m == 1)
      ensures |ReachedWithin(lim, ss[i], email, from)| <= 2 * (m - 1)
    {
      VerificationsAreBounded(lim, ss, es, i, email, 0, from, m);
    }
  }

  // ---- how an email gets stuck ----

  /** n logins for the email have failed; the first one's EXPIRE was lost. */
  ghost predicate Failed(s: State, n: nat, email: string) {
    var key := LoginEmailKey(email);
    && Tidy(s, n, email, email)
    && (if n == 0 then key !in s.keys else key in s.keys && s.keys[key] == Stored(n, None))
    && forall id | id in s.calls :: s.calls[id].pc == Rejected
  }

  lemma FailOnce(lim: Limits, s: State, n: nat, email: string, key: string, m: nat) returns (s': State)
    requires Roomy(lim, m) && n + 1 < m && Failed(s, n, email) && Reachable(lim, s, key)
    ensures Failed(s', n + 1, email) && Reachable(lim, s', key)
  {
    TidyIsFree(s, n, email, email);
    MarkerIsAbsent(s, n, email, email, email);
    var joined := Join(lim, s, n, email, key, m);
    OneMoreFailed(lim, s, n, email);
    s' := FailJoined(lim, joined, n, key, m);
  }

  lemma OneMoreFailed(lim: Limits, s: State, n: nat, email: string)
    requires Failed(s, n, email)
    ensures var joined := Joined(lim, s, n, email);
            && joined.calls[n].pc in {Arm(OnEmail), Decide(OnEmail)}
            && joined.calls[n].onEmail.Some? && joined.calls[n].onEmail.value.count == n + 1
            && Failed(joined.(calls := joined.calls[n := joined.calls[n].(pc := Rejected)]), n + 1, email)
  {
    FreshIps(n, n, email);
    var joined := Joined(lim, s, n, email);
    assert forall k | k in joined.keys :: k == LoginEmailKey(email) || k == IpKeyOf(n) || k in s.keys;
  }

  /** The call's EXPIRE, if it has one, is lost; it passes, and its password is wrong. */
  lemma FailJoined(lim: Limits, s: State, id: nat, key: string, m: nat) returns (s': State)
    requires Roomy(lim, m) && Reachable(lim, s, key)
    requires id in s.calls && s.calls[id].pc in {Arm(OnEmail), Decide(OnEmail)}
    requires s.calls[id].onEmail.Some? && s.calls[id].onEmail.value.count < m
    ensures s' == s.(calls := s.calls[id := s.calls[id].(pc := Rejected)]) && Reachable(lim, s', key)
  {
    BlocksExactlyFrom(lim.tiers, m, s.calls[id].onEmail.value.count);
    var counted := s;
    if s.calls[id].pc.Arm? {
      counted := Step(lim, s, ArmExpire(id, true), key);
    }
    var passed := Step(lim, counted, Finish(id), key);
    s' := Step(lim, passed, Reject(id), key);
  }

  lemma {:induction false} FailRepeatedly(lim: Limits, n: nat, email: string, key: string, m: nat) returns (s: State)
    requires Roomy(lim, m) && n < m
    ensures Failed(s, n, email) && Reachable(lim, s, key)
  {
    if n == 0 {
      NothingIsReachable(lim, key);
      s := NOTHING;
    } else {
      var before := FailRepeatedly(lim, n - 1, email, key, m);
      s := FailOnce(lim, before, n - 1, email, key, m);
    }
  }

  /** A lost EXPIRE and m - 1 wrong passwords lead to a stuck email, whichever it is. */
  lemma EmailsGetStuck(lim: Limits, email: string, m: nat) returns (s: State)
    requires Roomy(lim, m)
    ensures Reachable(lim, s, LoginEmailKey(email)) && Stuck(s, email, m)
  {
    s := FailRepeatedly(lim, m - 1, email, LoginEmailKey(email), m);
    BlocksExactlyFrom(lim.tiers, m, m);
  }
}
