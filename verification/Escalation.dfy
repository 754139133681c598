/**
 Undisturbed Checks and Resets of any number of keys, one after another, seen from one key: what other
 keys can and cannot do to it, and how fast its attempts can be counted.
 */
module Escalation {
  import opened Types
  import opened RateLimiter

  datatype Limits = Limits(tiers: seq<Tier>, counterTTL: nat)

  datatype Use = Checked(key: string, at: Time) | Cleared(key: string, at: Time)

  function Perform(lim: Limits, keys: Keyspace, use: Use): Keyspace {
    match use
    case Checked(key, at) => CheckKey(lim.tiers, lim.counterTTL, keys, key, at).0
    case Cleared(key, _) => Del(keys, key)
  }

  /** The keyspace after the uses, from the given start. */
  function Replay(lim: Limits, start: Keyspace, uses: seq<Use>): Keyspace {
    if uses == [] then start
    else
      var n := |uses| - 1;
      Perform(lim, Replay(lim, start, uses[..n]), uses[n])
  }

  // ---- other keys do not matter ----

  function Own(uses: seq<Use>, key: string): seq<Use> {
    if uses == [] then []
    else
      var n := |uses| - 1;
      Own(uses[..n], key) + if uses[n].key == key then [uses[n]] else []
  }

  lemma PerformKeepsView(lim: Limits, a: Keyspace, b: Keyspace, use: Use, key: string)
    requires SameView(a, b, key) && !Clash(use.key, key)
    ensures use.key == key ==> SameView(Perform(lim, a, use), Perform(lim, b, use), key)
    ensures use.key != key ==> SameView(Perform(lim, a, use), b, key)
  {
    if use.key != key {
      OthersKeepView(lim.tiers, lim.counterTTL, a, use.key, key, use.at);
    } else if use.Checked? {
      CheckSeesView(lim.tiers, lim.counterTTL, a, b, key, use.at);
    }
  }

  /** If no use is of a clashing key, a key looks as if only its own uses had happened. */
  lemma {:induction false} OthersDoNotMatter(lim: Limits, start: Keyspace, uses: seq<Use>, key: string)
    requires forall u | u in uses :: !Clash(u.key, key)
    ensures SameView(Replay(lim, start, uses), Replay(lim, start, Own(uses, key)), key)
  {
    if uses != [] {
      var n := |uses| - 1;
      var own := Own(uses[..n], key);
      OthersDoNotMatter(lim, start, uses[..n], key);
      PerformKeepsView(lim, Replay(lim, start, uses[..n]), Replay(lim, start, own), uses[n], key);
      assert uses[n].key == key ==> (own + [uses[n]])[..|own|] == own;
      assert uses[n].key != key ==> own + [] == own;
    }
  }

  // ---- escalation ----

  /**
   The instants of the INCRs of the key's current counter lifetime; none if there is no lifetime, or if it
   began before the uses.
   */
  function Incrs(lim: Limits, start: Keyspace, uses: seq<Use>, key: string): seq<Time> {
    if uses == [] then []
    else
      var n := |uses| - 1;
      NextIncrs(Replay(lim, start, uses[..n]), Incrs(lim, start, uses[..n], key), uses[n], key)
  }

  function NextIncrs(keys: Keyspace, incrs: seq<Time>, use: Use, key: string): seq<Time> {
    if use.key != key then incrs
    else if use.Cleared? then []
    else if Ttl(keys, Marker(key), use.at) > 0 then incrs
    else if !Live(keys, key, use.at) then [use.at]
    else if incrs == [] then []
    else incrs + [use.at]
  }

  ghost predicate Ordered(uses: seq<Use>) {
    forall i, j :: 0 <= i < j < |uses| ==> uses[i].at <= uses[j].at
  }

  /** The key is nobody's marker, and its own marker is never reset; the key itself may be. */
  ghost predicate Shielded(uses: seq<Use>, key: string) {
    forall u | u in uses :: Marker(u.key) != key && (u.Cleared? ==> u.key != Marker(key))
  }

  /** Total block time earned by the first k - 1 attempts. */
  function SumBlocks(tiers: seq<Tier>, k: nat): nat {
    if k <= 1 then 0 else SumBlocks(tiers, k - 1) + BlockFor(tiers, k - 1)
  }

  ghost predicate Spaced(tiers: seq<Tier>, incrs: seq<Time>) {
    forall k :: 1 <= k <= |incrs| ==> incrs[k - 1] >= incrs[0] + SumBlocks(tiers, k)
  }

  /** The marker is kept at least until the given instant. */
  predicate MarkedUntil(keys: Keyspace, key: string, until: Time) {
    Marker(key) in keys && keys[Marker(key)].deadline.Some? && keys[Marker(key)].deadline.value >= until
  }

  /** The key's two entries are what the increments of the current lifetime left behind. */
  ghost predicate KeyFits(lim: Limits, keys: Keyspace, key: string, incrs: seq<Time>) {
    var n := |incrs|;
    n > 0 ==>
      && key in keys && keys[key] == Stored(n, Some(incrs[0] + lim.counterTTL))
      && (BlockFor(lim.tiers, n) > 0 ==> MarkedUntil(keys, key, incrs[n - 1] + BlockFor(lim.tiers, n)))
  }

  /** A use of another key leaves the counter alone and never shortens the block, even a Check of the marker itself. */
  lemma OtherUseKeepsFit(lim: Limits, keys: Keyspace, use: Use, key: string, incrs: seq<Time>)
    requires KeyFits(lim, keys, key, incrs) && Shielded([use], key) && use.key != key
    ensures KeyFits(lim, Perform(lim, keys, use), key, incrs)
  {
    assert use in [use];
    assert Marker(use.key) != Marker(key);
  }

  lemma OwnCheckKeepsFit(lim: Limits, keys: Keyspace, key: string, now: Time, incrs: seq<Time>)
    requires KeyFits(lim, keys, key, incrs) && Ttl(keys, Marker(key), now) <= 0
    ensures KeyFits(lim, CheckKey(lim.tiers, lim.counterTTL, keys, key, now).0, key,
                    NextIncrs(keys, incrs, Checked(key, now), key))
  {
  }

  lemma SpacedExtends(tiers: seq<Tier>, incrs: seq<Time>, now: Time)
    requires incrs != [] && Spaced(tiers, incrs)
    requires now >= incrs[|incrs| - 1] + BlockFor(tiers, |incrs|)
    ensures Spaced(tiers, incrs + [now])
  {
    var n := |incrs|;
    assert incrs[n - 1] >= incrs[0] + SumBlocks(tiers, n);
    assert SumBlocks(tiers, n + 1) == SumBlocks(tiers, n) + BlockFor(tiers, n);
    forall k | 1 <= k <= n + 1
      ensures (incrs + [now])[k - 1] >= incrs[0] + SumBlocks(tiers, k)
    {
      if k <= n {
        assert (incrs + [now])[k - 1] == incrs[k - 1];
      }
    }
  }

  lemma UseKeepsInv(lim: Limits, keys: Keyspace, incrs: seq<Time>, use: Use, key: string)
    requires KeyFits(lim, keys, key, incrs) && Spaced(lim.tiers, incrs)
    requires Shielded([use], key) && forall t | t in incrs :: t <= use.at
    ensures var incrs' := NextIncrs(keys, incrs, use, key);
            && KeyFits(lim, Perform(lim, keys, use), key, incrs') && Spaced(lim.tiers, incrs')
            && forall t | t in incrs' :: t <= use.at
  {
    assert use in [use];
    if use.key != key {
      OtherUseKeepsFit(lim, keys, use, key, incrs);
    } else if use.Checked? && Ttl(keys, Marker(key), use.at) <= 0 {
      OwnCheckKeepsFit(lim, keys, key, use.at, incrs);
      if Live(keys, key, use.at) && incrs != [] {
        assert incrs[|incrs| - 1] in incrs;
        SpacedExtends(lim.tiers, incrs, use.at);
      }
    }
  }

  lemma {:induction false} ReplayKeepsInv(lim: Limits, start: Keyspace, uses: seq<Use>, key: string)
    requires Ordered(uses) && Shielded(uses, key)
    ensures var incrs := Incrs(lim, start, uses, key);
            && KeyFits(lim, Replay(lim, start, uses), key, incrs) && Spaced(lim.tiers, incrs)
            && (uses != [] ==> forall t | t in incrs :: t <= uses[|uses| - 1].at)
  {
    if uses != [] {
      var n := |uses| - 1;
      EarlierUses(uses, key);
      ReplayKeepsInv(lim, start, uses[..n], key);
      UseKeepsInv(lim, Replay(lim, start, uses[..n]), Incrs(lim, start, uses[..n], key), uses[n], key);
    }
  }

  lemma EarlierUses(uses: seq<Use>, key: string)
    requires uses != [] && Ordered(uses) && Shielded(uses, key)
    ensures var n := |uses| - 1;
            && Ordered(uses[..n]) && Shielded(uses[..n], key) && Shielded([uses[n]], key)
            && (n > 0 ==> uses[..n][n - 1].at <= uses[n].at)
  {
    assert forall u | u in uses[..|uses| - 1] :: u in uses;
    assert uses[|uses| - 1] in uses;
  }

  /**
   Escalation: from any state on, however many Checks are made, the k-th increment of a counter lifetime comes
   at least the sum of the first k - 1 block durations after the first.  The key itself may be reset before and
   after the lifetime, other keys may be checked and reset meanwhile, and even the key's marker may be checked
   as if it were a key.
   */
  lemma EscalationBound(lim: Limits, start: Keyspace, uses: seq<Use>, key: string, k: nat)
    requires Ordered(uses) && Shielded(uses, key)
    requires 1 <= k <= |Incrs(lim, start, uses, key)|
    ensures var incrs := Incrs(lim, start, uses, key);
            incrs[k - 1] - incrs[0] >= SumBlocks(lim.tiers, k)
  {
    ReplayKeepsInv(lim, start, uses, key);
  }

  /** Once a lifetime has counted to the top, the block outlives the counter. */
  lemma TopBlockOutlivesCounter(lim: Limits, keys: Keyspace, incrs: seq<Time>, use: Use, key: string, top: nat)
    requires KeyFits(lim, keys, key, incrs) && Spaced(lim.tiers, incrs)
    requires 0 < top && BlockFor(lim.tiers, top) >= lim.counterTTL > 0
    ensures |incrs| <= top ==> |NextIncrs(keys, incrs, use, key)| <= top
  {
    if |incrs| == top {
      assert incrs[top - 1] >= incrs[0] + SumBlocks(lim.tiers, top);
      assert MarkedUntil(keys, key, incrs[0] + lim.counterTTL);
    }
  }

  /** If the top tier blocks for at least the counter's lifetime, no lifetime counts past the top threshold. */
  lemma {:induction false} CountStopsAtTop(lim: Limits, start: Keyspace, uses: seq<Use>, key: string, top: nat)
    requires Ordered(uses) && Shielded(uses, key)
    requires 0 < top && BlockFor(lim.tiers, top) >= lim.counterTTL > 0
    ensures |Incrs(lim, start, uses, key)| <= top
  {
    if uses != [] {
      var n := |uses| - 1;
      EarlierUses(uses, key);
      CountStopsAtTop(lim, start, uses[..n], key, top);
      ReplayKeepsInv(lim, start, uses[..n], key);
      TopBlockOutlivesCounter(lim, Replay(lim, start, uses[..n]), Incrs(lim, start, uses[..n], key), uses[n], key, top);
    }
  }

  // ---- the shipped configuration ----

  const DEFAULT_LIMITS := Limits(DEFAULT_TIERS, 24 * HOUR)

  function DefaultBlock(count: nat): nat {
    if count >= 20 then 24 * HOUR else if count >= 10 then 15 * MINUTE else if count >= 5 then MINUTE else 0
  }

  lemma DefaultTiersBlock(count: nat)
    ensures BlockFor(DEFAULT_TIERS, count) == DefaultBlock(count)
  {
    assert DEFAULT_TIERS[0] == Tier(5, MINUTE) && DEFAULT_TIERS[1] == Tier(10, 15 * MINUTE)
        && DEFAULT_TIERS[2] == Tier(20, 24 * HOUR);
    assert IsBlockFor(DEFAULT_TIERS, count, BlockFor(DEFAULT_TIERS, count));
  }

  /** With the shipped limits the twentieth attempt cannot come earlier than 155 minutes after the first. */
  lemma DefaultTiersTake155Minutes(start: Keyspace, uses: seq<Use>, key: string)
    requires Ordered(uses) && Shielded(uses, key)
    requires |Incrs(DEFAULT_LIMITS, start, uses, key)| >= 20
    ensures var incrs := Incrs(DEFAULT_LIMITS, start, uses, key);
            incrs[19] - incrs[0] >= 155 * MINUTE
  {
    EscalationBound(DEFAULT_LIMITS, start, uses, key, 20);
    DefaultTiersAddUp();
  }

  /** And there is no twenty-first attempt in one counter lifetime. */
  lemma DefaultTiersStopAt20(start: Keyspace, uses: seq<Use>, key: string)
    requires Ordered(uses) && Shielded(uses, key)
    ensures |Incrs(DEFAULT_LIMITS, start, uses, key)| <= 20
  {
    DefaultTiersBlock(20);
    CountStopsAtTop(DEFAULT_LIMITS, start, uses, key, 20);
  }

  /** Four free attempts, five at a minute each, ten at a quarter of an hour each. */
  lemma DefaultTiersAddUp()
    ensures SumBlocks(DEFAULT_TIERS, 20) == 155 * MINUTE
  {
    forall count: nat
      ensures BlockFor(DEFAULT_TIERS, count) == DefaultBlock(count)
    {
      DefaultTiersBlock(count);
    }
    SumOfSteps(DEFAULT_TIERS, 5, 1, 0);
    SumOfSteps(DEFAULT_TIERS, 10, 5, MINUTE);
    SumOfSteps(DEFAULT_TIERS, 20, 10, 15 * MINUTE);
    TimesIsProduct(4, 0);
    TimesIsProduct(5, MINUTE);
    TimesIsProduct(10, 15 * MINUTE);
  }

  function Times(n: nat, step: nat): nat {
    if n == 0 then 0 else Times(n - 1, step) + step
  }

  lemma {:induction false} TimesIsProduct(n: nat, step: nat)
    ensures Times(n, step) == n * step
  {
    if n > 0 {
      TimesIsProduct(n - 1, step);
      assert n * step == (n - 1) * step + step;
    }
  }

  lemma {:induction false} SumOfSteps(tiers: seq<Tier>, k: nat, from: nat, step: nat)
    requires 1 <= from <= k
    requires forall i :: from <= i < k ==> BlockFor(tiers, i) == step
    ensures SumBlocks(tiers, k) == SumBlocks(tiers, from) + Times(k - from, step)
  {
    if k > from {
      SumOfSteps(tiers, k - 1, from, step);
    }
  }

}
