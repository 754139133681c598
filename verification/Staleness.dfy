/**
 How stale a permission answer can be when cache invalidations may fail and cache fills are in flight.

 The database may be rewritten in any way at any step, an invalidation may or may not follow, and a
 HasPermission that missed reads the join in one step and stores it at most `delay` ticks later.
 */
module Staleness {
  import opened Types
  import opened PermissionTable
  import opened PermissionCache

  datatype Timing = Timing(ttl: nat, delay: nat)

  /**
   A miss that has read the join.  It stays among `fills` once stored, so that equal ones may be in flight at
   once.
   */
  datatype Fill = Fill(userId: UserId, codes: set<string>, readAt: Time)

  datatype State = State(now: Time, db: Grants, entries: Entries, fills: set<Fill>)

  datatype Event =
    | Tick(to: Time)
    | Write(db: Grants)
    | Drop(userId: UserId)
    | DropAll
    | Read(userId: UserId)
    | Store(fill: Fill)

  predicate Enabled(t: Timing, s: State, e: Event) {
    match e
    case Tick(to) => s.now <= to
    case Store(fill) => fill in s.fills && s.now <= fill.readAt + t.delay
    case _ => true
  }

  function Apply(t: Timing, s: State, e: Event): State {
    match e
    case Tick(to) => s.(now := to)
    case Write(db) => s.(db := db)
    case Drop(u) => s.(entries := Invalidate(s.entries, u))
    case DropAll => s.(entries := map[])
    case Read(u) => s.(fills := s.fills + {Fill(u, s.db.CodesOf(u), s.now)})
    case Store(fill) => s.(entries := Put(s.entries, fill.userId, fill.codes, s.now, t.ttl))
  }

  ghost predicate Run(t: Timing, ss: seq<State>, es: seq<Event>) {
    && |ss| == |es| + 1
    && ss[0].entries == map[] && ss[0].fills == {}
    && forall i | 0 <= i < |es| :: Enabled(t, ss[i], es[i]) && ss[i + 1] == Apply(t, ss[i], es[i])
  }

  /**
   Some state of the run up to the i-th had exactly these codes in the database, at an instant no earlier than
   `since`.
   */
  ghost predicate HeldSince(ss: seq<State>, i: nat, userId: UserId, codes: set<string>, since: int)
    requires i < |ss|
  {
    exists h :: 0 <= h <= i && since <= ss[h].now <= ss[i].now && ss[h].db.CodesOf(userId) == codes
  }

  ghost predicate Inv(t: Timing, ss: seq<State>, i: nat)
    requires i < |ss|
  {
    && (forall f | f in ss[i].fills :: HeldSince(ss, i, f.userId, f.codes, f.readAt))
    && (forall u | u in ss[i].entries ::
          HeldSince(ss, i, u, ss[i].entries[u].codes, ss[i].entries[u].deadline - t.ttl - t.delay))
  }

  lemma HeldLater(t: Timing, ss: seq<State>, es: seq<Event>, i: nat, userId: UserId, codes: set<string>, since: int)
    requires Run(t, ss, es) && i < |es|
    requires HeldSince(ss, i, userId, codes, since)
    ensures HeldSince(ss, i + 1, userId, codes, since)
  {
    var h :| 0 <= h <= i && since <= ss[h].now <= ss[i].now && ss[h].db.CodesOf(userId) == codes;
    assert Enabled(t, ss[i], es[i]) && ss[i + 1] == Apply(t, ss[i], es[i]);
    assert ss[h].now <= ss[i + 1].now;
  }

  lemma {:induction false} RunKeepsInv(t: Timing, ss: seq<State>, es: seq<Event>, i: nat)
    requires Run(t, ss, es) && i < |ss|
    ensures Inv(t, ss, i)
  {
    if i > 0 {
      RunKeepsInv(t, ss, es, i - 1);
      var s, e, s' := ss[i - 1], es[i - 1], ss[i];
      assert Enabled(t, s, e) && s' == Apply(t, s, e);
      forall f | f in s'.fills
        ensures HeldSince(ss, i, f.userId, f.codes, f.readAt)
      {
        if f in s.fills {
          HeldLater(t, ss, es, i - 1, f.userId, f.codes, f.readAt);
        }
      }
      forall u | u in s'.entries
        ensures HeldSince(ss, i, u, s'.entries[u].codes, s'.entries[u].deadline - t.ttl - t.delay)
      {
        if e.Store? && u == e.fill.userId {
          HeldLater(t, ss, es, i - 1, u, e.fill.codes, e.fill.readAt);
        } else {
          HeldLater(t, ss, es, i - 1, u, s.entries[u].codes, s.entries[u].deadline - t.ttl - t.delay);
        }
      }
    }
  }

  /** The codes HasPermission answers from when asked in this state. */
  function CodesSeen(s: State, userId: UserId): set<string> {
    match Get(s.entries, userId, s.now)
    case Some(codes) => codes
    case None => s.db.CodesOf(userId)
  }

  /**
   Whichever invalidations fail, the codes answered from are those the database held at one instant less than
   ttl + delay ago, whatever is asked; with one request at a time (delay 0), less than one ttl ago.  A miss
   answers from codes the database held when the miss read them.
   */
  lemma BoundedStaleness(t: Timing, ss: seq<State>, es: seq<Event>, i: nat, userId: UserId)
    requires Run(t, ss, es) && i < |ss| && t.ttl > 0
    ensures exists h :: 0 <= h <= i
              && ss[i].now - t.ttl - t.delay < ss[h].now <= ss[i].now
              && CodesSeen(ss[i], userId) == ss[h].db.CodesOf(userId)
    ensures forall f | f in ss[i].fills && f.userId == userId ::
              exists h :: 0 <= h <= i && f.readAt <= ss[h].now <= ss[i].now && ss[h].db.CodesOf(userId) == f.codes
  {
    RunKeepsInv(t, ss, es, i);
    var s := ss[i];
    if Get(s.entries, userId, s.now).Some? {
      var since := s.entries[userId].deadline - t.ttl - t.delay;
      assert HeldSince(ss, i, userId, s.entries[userId].codes, since);
      var h :| 0 <= h <= i && since <= ss[h].now <= ss[i].now && ss[h].db.CodesOf(userId) == s.entries[userId].codes;
    } else {
      assert CodesSeen(s, userId) == ss[i].db.CodesOf(userId);
    }
  }
}
