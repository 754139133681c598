/**
 The tiered login limiter on one flat Redis keyspace.  The counter of a limiter key is stored under the key
 itself and its block marker under the key followed by ":block", so the marker of one key is at the same
 time the counter of a longer one.  A stored key is live strictly before its deadline.
 */
module RateLimiter {
  import opened Types

  datatype Tier = Tier(threshold: int, block: nat)

  /** A counter, or the "1" of a block marker: no command ever stores zero. */
  type Count = n: nat | n > 0 witness 1

  datatype Stored = Stored(value: Count, deadline: Option<Time>)

  type Keyspace = map<string, Stored>

  const DEFAULT_TIERS := [Tier(5, MINUTE), Tier(10, 15 * MINUTE), Tier(20, 24 * HOUR)]

  // ---- keys ----

  /** Where the block marker of a limiter key is stored; the key can be read back off it. */
  function Marker(key: string): (marker: string)
    ensures |marker| == |key| + 6 && marker[..|key|] == key
  {
    key + ":block"
  }

  function LoginIPKey(ip: string): string {
    "login:ip:" + ip
  }

  function LoginEmailKey(email: string): string {
    "login:email:" + email
  }

  lemma LoginKeysDiffer(ip: string, email: string)
    ensures LoginIPKey(ip) != LoginEmailKey(email)
    ensures Marker(LoginIPKey(ip)) != LoginEmailKey(email) && LoginIPKey(ip) != Marker(LoginEmailKey(email))
    ensures Marker(LoginIPKey(ip)) != Marker(LoginEmailKey(email))
  {
    assert LoginIPKey(ip)[6] == 'i' && LoginEmailKey(email)[6] == 'e';
    assert Marker(LoginIPKey(ip))[6] == 'i' && Marker(LoginEmailKey(email))[6] == 'e';
  }

  lemma LoginKeysAreInjective(a: string, b: string)
    ensures LoginIPKey(a) == LoginIPKey(b) ==> a == b
    ensures LoginEmailKey(a) == LoginEmailKey(b) ==> a == b
  {
    assert LoginIPKey(a)[9..] == a && LoginIPKey(b)[9..] == b;
    assert LoginEmailKey(a)[12..] == a && LoginEmailKey(b)[12..] == b;
  }

  /** One of the keys is the block marker of the other. */
  predicate Clash(a: string, b: string) {
    a == Marker(b) || Marker(a) == b
  }

  /** Two emails clash exactly when one is the other followed by ":block"; IP addresses likewise. */
  lemma ClashingLoginKeys(a: string, b: string)
    ensures Clash(LoginEmailKey(a), LoginEmailKey(b)) <==> Clash(a, b)
    ensures Clash(LoginIPKey(a), LoginIPKey(b)) <==> Clash(a, b)
    ensures !Clash(LoginIPKey(a), LoginEmailKey(b)) && !Clash(LoginEmailKey(b), LoginIPKey(a))
  {
    LoginKeysDiffer(a, b);
    MarkerOfLoginKey(a);
    MarkerOfLoginKey(b);
    LoginKeysAreInjective(a, Marker(b));
    LoginKeysAreInjective(Marker(a), b);
  }

  lemma MarkerOfLoginKey(a: string)
    ensures Marker(LoginEmailKey(a)) == LoginEmailKey(Marker(a))
    ensures Marker(LoginIPKey(a)) == LoginIPKey(Marker(a))
  {
  }

  // ---- the Redis commands ----

  predicate Live(keys: Keyspace, key: string, now: Time) {
    key in keys && (keys[key].deadline.Some? ==> now < keys[key].deadline.value)
  }

  /** TTL: -2 for an absent key, -1 for one without a deadline. */
  function Ttl(keys: Keyspace, key: string, now: Time): int {
    if !Live(keys, key, now) then -2
    else
      match keys[key].deadline
      case None => -1
      case Some(deadline) => deadline - now
  }

  /** GET, with an absent key read as 0. */
  function CountAt(keys: Keyspace, key: string, now: Time): nat {
    if Live(keys, key, now) then keys[key].value else 0
  }

  function Incr(keys: Keyspace, key: string, now: Time): Keyspace {
    keys[key := if Live(keys, key, now) then keys[key].(value := keys[key].value + 1) else Stored(1, None)]
  }

  function Expire(keys: Keyspace, key: string, now: Time, ttl: nat): Keyspace {
    if Live(keys, key, now) then keys[key := keys[key].(deadline := Some(now + ttl))] else keys
  }

  /** SET of the block marker to "1" with an expiry. */
  function SetBlock(keys: Keyspace, key: string, now: Time, duration: nat): Keyspace {
    keys[Marker(key) := Stored(1, Some(now + duration))]
  }

  /** DEL of a limiter key and its block marker. */
  function Del(keys: Keyspace, key: string): Keyspace {
    keys - {key, Marker(key)}
  }

  // ---- tier arithmetic ----

  /** `block` is the longest block of any tier whose threshold `count` has reached, 0 if none. */
  ghost predicate IsBlockFor(tiers: seq<Tier>, count: int, block: nat) {
    && (block == 0 || exists i :: 0 <= i < |tiers| && tiers[i].threshold <= count && tiers[i].block == block)
    && forall i :: 0 <= i < |tiers| && tiers[i].threshold <= count ==> tiers[i].block <= block
  }

  /** The least threshold that blocks for a positive time. */
  ghost predicate IsFirstBlocking(tiers: seq<Tier>, m: int) {
    && (exists i :: 0 <= i < |tiers| && tiers[i].threshold == m && tiers[i].block > 0)
    && forall i :: 0 <= i < |tiers| && tiers[i].block > 0 ==> m <= tiers[i].threshold
  }

  function BlockFor(tiers: seq<Tier>, count: int): (block: nat)
    ensures IsBlockFor(tiers, count, block)
  {
    if tiers == [] then 0
    else
      var n := |tiers| - 1;
      var rest := BlockFor(tiers[..n], count);
      if count >= tiers[n].threshold && tiers[n].block > rest then tiers[n].block else rest
  }

  /** Any two answers meeting the description agree, so a method meeting it computes BlockFor. */
  lemma BlockIsUnique(tiers: seq<Tier>, count: int, a: nat, b: nat)
    requires IsBlockFor(tiers, count, a) && IsBlockFor(tiers, count, b)
    ensures a == b
  {
  }

  lemma BlocksExactlyFrom(tiers: seq<Tier>, m: int, count: int)
    requires IsFirstBlocking(tiers, m)
    ensures BlockFor(tiers, count) > 0 <==> count >= m
  {
    var block := BlockFor(tiers, count);
    assert IsBlockFor(tiers, count, block);
  }

  lemma BlockIsMonotone(tiers: seq<Tier>, a: int, b: int)
    requires a <= b
    ensures BlockFor(tiers, a) <= BlockFor(tiers, b)
  {
    assert IsBlockFor(tiers, a, BlockFor(tiers, a)) && IsBlockFor(tiers, b, BlockFor(tiers, b));
  }

  method BlockDuration(tiers: seq<Tier>, count: int) returns (block: nat)
    ensures IsBlockFor(tiers, count, block)
    ensures block == BlockFor(tiers, count)
  {
    block := 0;
    for i := 0 to |tiers|
      invariant block == 0 || exists j :: 0 <= j < i && tiers[j].threshold <= count && tiers[j].block == block
      invariant forall j :: 0 <= j < i && tiers[j].threshold <= count ==> tiers[j].block <= block
    {
      if count >= tiers[i].threshold && tiers[i].block > block {
        block := tiers[i].block;
      }
    }
    BlockIsUnique(tiers, count, block, BlockFor(tiers, count));
  }

  ghost predicate IsMaxThreshold(tiers: seq<Tier>, max: int) {
    && (max == 0 || exists i :: 0 <= i < |tiers| && tiers[i].threshold == max)
    && 0 <= max && forall i :: 0 <= i < |tiers| ==> tiers[i].threshold <= max
  }

  function MaxThreshold(tiers: seq<Tier>): (max: nat)
    ensures IsMaxThreshold(tiers, max)
  {
    if tiers == [] then 0
    else
      var n := |tiers| - 1;
      var rest := MaxThreshold(tiers[..n]);
      if tiers[n].threshold > rest then tiers[n].threshold else rest
  }

  method MaxTierThreshold(tiers: seq<Tier>) returns (max: nat)
    ensures IsMaxThreshold(tiers, max) && max == MaxThreshold(tiers)
  {
    max := 0;
    for i := 0 to |tiers|
      invariant max == 0 || exists j :: 0 <= j < i && tiers[j].threshold == max
      invariant forall j :: 0 <= j < i ==> tiers[j].threshold <= max
    {
      if tiers[i].threshold > max {
        max := tiers[i].threshold;
      }
    }
    assert IsMaxThreshold(tiers, MaxThreshold(tiers));
  }

  // ---- one undisturbed Check ----

  datatype Verdict = Verdict(blocked: bool, retryAfter: int, count: int)

  /** What Check does when no other command comes between its own, reading the clock once. */
  function CheckKey(tiers: seq<Tier>, counterTTL: nat, keys: Keyspace, key: string, now: Time): (Keyspace, Verdict) {
    if Ttl(keys, Marker(key), now) > 0 then
      (keys, Verdict(true, Ttl(keys, Marker(key), now), CountAt(keys, key, now)))
    else
      var counted := Incr(keys, key, now);
      var count := counted[key].value;
      var armed := if count == 1 then Expire(counted, key, now, counterTTL) else counted;
      var block := BlockFor(tiers, count);
      if block > 0 then (SetBlock(armed, key, now, block), Verdict(true, block, count))
      else (armed, Verdict(false, 0, count))
  }

  /**
   A Check is refused exactly while the key's marker is live with a deadline, or from the first blocking
   threshold on; else it counts one.  It writes to no key but its own two.
   */
  lemma CheckBlocksExactly(tiers: seq<Tier>, counterTTL: nat, keys: Keyspace, key: string, now: Time, m: nat)
    requires 1 <= m && IsFirstBlocking(tiers, m) && counterTTL > 0
    ensures var (keys', verdict) := CheckKey(tiers, counterTTL, keys, key, now);
            var count := CountAt(keys, key, now);
            && (verdict.blocked <==> Ttl(keys, Marker(key), now) > 0 || count + 1 >= m)
            && (verdict.blocked ==> verdict.retryAfter > 0)
            && (Ttl(keys, Marker(key), now) <= 0 ==> CountAt(keys', key, now) == count + 1)
            && (Ttl(keys, Marker(key), now) > 0 ==> keys' == keys)
            && (verdict.blocked ==> Ttl(keys', Marker(key), now) == verdict.retryAfter)
            && keys' - {key, Marker(key)} == keys - {key, Marker(key)}
  {
    BlocksExactlyFrom(tiers, m, CountAt(keys, key, now) + 1);
  }

  /** The limiter and the Redis keys it owns, updated command by command. */
  class TieredRateLimiter {
    const tiers: seq<Tier>
    const counterTTL: nat
    var keys: Keyspace

    constructor (tiers: seq<Tier>, counterTTL: nat)
      ensures this.tiers == tiers && this.counterTTL == counterTTL && keys == map[]
    {
      this.tiers, this.counterTTL, this.keys := tiers, counterTTL, map[];
    }

    method Check(key: string, now: Time) returns (verdict: Verdict)
      modifies this
      ensures (keys, verdict) == CheckKey(tiers, counterTTL, old(keys), key, now)
    {
      var ttl := Ttl(keys, Marker(key), now);
      if ttl > 0 {
        var stored := CountAt(keys, key, now);
        return Verdict(true, ttl, stored);
      }
      keys := Incr(keys, key, now);
      var count := keys[key].value;
      if count == 1 {
        keys := Expire(keys, key, now, counterTTL);
      }
      var block := BlockDuration(tiers, count);
      if block > 0 {
        keys := SetBlock(keys, key, now, block);
        return Verdict(true, block, count);
      }
      return Verdict(false, 0, count);
    }

    method Reset(key: string)
      modifies this
      ensures keys == Del(old(keys), key)
    {
      keys := Del(keys, key);
    }
  }

  // ---- when one key's traffic shows on another ----

  /** What a Check of the key can see. */
  predicate SameView(a: Keyspace, b: Keyspace, key: string) {
    forall k | k in {key, Marker(key)} :: (k in a <==> k in b) && (k in a ==> a[k] == b[k])
  }

  /** A Check depends on, and changes, nothing but the view of its key. */
  lemma CheckSeesView(tiers: seq<Tier>, counterTTL: nat, a: Keyspace, b: Keyspace, key: string, now: Time)
    requires SameView(a, b, key)
    ensures var (a', va) := CheckKey(tiers, counterTTL, a, key, now);
            var (b', vb) := CheckKey(tiers, counterTTL, b, key, now);
            va == vb && SameView(a', b', key)
  {
    assert key in {key, Marker(key)} && Marker(key) in {key, Marker(key)};
  }

  lemma OthersKeepView(tiers: seq<Tier>, counterTTL: nat, keys: Keyspace, other: string, key: string, now: Time)
    requires other != key && !Clash(other, key)
    ensures SameView(CheckKey(tiers, counterTTL, keys, other, now).0, keys, key)
    ensures SameView(Del(keys, other), keys, key)
  {
    assert Marker(other) != Marker(key);
  }

  /** In no state does a Check of `other` change what a Check of `key` answers at that instant. */
  ghost predicate CheckSpares(tiers: seq<Tier>, counterTTL: nat, other: string, key: string) {
    forall keys, now ::
      CheckKey(tiers, counterTTL, CheckKey(tiers, counterTTL, keys, other, now).0, key, now).1
      == CheckKey(tiers, counterTTL, keys, key, now).1
  }

  /** In no state does a Reset of `other` change what a Check of `key` answers. */
  ghost predicate ResetSpares(tiers: seq<Tier>, counterTTL: nat, other: string, key: string) {
    forall keys, now ::
      CheckKey(tiers, counterTTL, Del(keys, other), key, now).1 == CheckKey(tiers, counterTTL, keys, key, now).1
  }

  /**
   The limiter keeps two keys apart exactly when neither is the block marker of the other: for every other
   pair there is a state in which a Check, and one in which a Reset, of the one changes the verdict on the
   other.
   */
  lemma KeysAreSeparate(tiers: seq<Tier>, counterTTL: nat, other: string, key: string, m: nat)
    requires other != key && 1 <= m && IsFirstBlocking(tiers, m) && counterTTL > 0
    ensures CheckSpares(tiers, counterTTL, other, key) <==> !Clash(other, key)
    ensures ResetSpares(tiers, counterTTL, other, key) <==> !Clash(other, key)
  {
    if !Clash(other, key) {
      forall keys, now
        ensures CheckKey(tiers, counterTTL, CheckKey(tiers, counterTTL, keys, other, now).0, key, now).1
             == CheckKey(tiers, counterTTL, keys, key, now).1
             == CheckKey(tiers, counterTTL, Del(keys, other), key, now).1
      {
        OthersKeepView(tiers, counterTTL, keys, other, key, now);
        CheckSeesView(tiers, counterTTL, CheckKey(tiers, counterTTL, keys, other, now).0, keys, key, now);
        CheckSeesView(tiers, counterTTL, Del(keys, other), keys, key, now);
      }
    } else {
      CheckShows(tiers, counterTTL, other, key, m);
      ResetShows(tiers, counterTTL, other, key);
    }
  }

  /** Of two emails, one shows on the other exactly when one is the other followed by ":block". */
  lemma EmailsAreSeparate(tiers: seq<Tier>, counterTTL: nat, other: string, email: string, m: nat)
    requires other != email && 1 <= m && IsFirstBlocking(tiers, m) && counterTTL > 0
    ensures CheckSpares(tiers, counterTTL, LoginEmailKey(other), LoginEmailKey(email)) <==> !Clash(other, email)
    ensures ResetSpares(tiers, counterTTL, LoginEmailKey(other), LoginEmailKey(email)) <==> !Clash(other, email)
  {
    LoginKeysAreInjective(other, email);
    ClashingLoginKeys(other, email);
    KeysAreSeparate(tiers, counterTTL, LoginEmailKey(other), LoginEmailKey(email), m);
  }

  lemma CheckShows(tiers: seq<Tier>, counterTTL: nat, other: string, key: string, m: nat)
    requires 1 <= m && IsFirstBlocking(tiers, m) && counterTTL > 0
    requires Clash(other, key)
    ensures !CheckSpares(tiers, counterTTL, other, key)
  {
    if other == Marker(key) {
      MarkerCheckBlocks(tiers, counterTTL, key, 0);
      assert CheckKey(tiers, counterTTL, map[], key, 0).1.count == 1;
    } else {
      BlockShows(tiers, counterTTL, other, m);
    }
  }

  /** One attempt short of a block, the next Check of a key writes its marker, which then counts as an attempt. */
  lemma BlockShows(tiers: seq<Tier>, counterTTL: nat, other: string, m: nat)
    requires 1 <= m && IsFirstBlocking(tiers, m) && counterTTL > 0
    ensures var keys: Keyspace := if m > 1 then map[other := Stored(m - 1, None)] else map[];
            var after := CheckKey(tiers, counterTTL, keys, other, 0).0;
            CheckKey(tiers, counterTTL, keys, Marker(other), 0).1.count == 1
            && CheckKey(tiers, counterTTL, after, Marker(other), 0).1.count == 2
  {
    BlocksExactlyFrom(tiers, m, m);
  }

  lemma ResetShows(tiers: seq<Tier>, counterTTL: nat, other: string, key: string)
    requires Clash(other, key)
    ensures !ResetSpares(tiers, counterTTL, other, key)
  {
    var keys: Keyspace :=
      if other == Marker(key) then map[other := Stored(1, Some(1))] else map[key := Stored(1, None)];
    assert CheckKey(tiers, counterTTL, Del(keys, other), key, 0).1.count
        != CheckKey(tiers, counterTTL, keys, key, 0).1.count;
  }

  /**
   At that input the limiter refuses a key nobody has tried: one Check of the key followed by ":block"
   starts the block marker, and the first Check of the key is blocked for a whole counter lifetime.
   */
  lemma MarkerCheckBlocks(tiers: seq<Tier>, counterTTL: nat, key: string, now: Time)
    requires counterTTL > 0
    ensures var keys := CheckKey(tiers, counterTTL, map[], Marker(key), now).0;
            && key !in keys
            && CheckKey(tiers, counterTTL, keys, key, now).1 == Verdict(true, counterTTL, 0)
  {
  }
}
