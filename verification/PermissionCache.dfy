/** The per-user sets of permission codes kept in Redis, each with a deadline. */
module PermissionCache {
  import opened Types

  datatype Entry = Entry(codes: set<string>, deadline: Time)

  type Entries = map<UserId, Entry>

  /** SMEMBERS: an absent, expired or empty set is a miss; a hit is the live stored set. */
  function Get(entries: Entries, userId: UserId, now: Time): (found: Option<set<string>>)
    ensures found.Some? <==> userId in entries && now < entries[userId].deadline && entries[userId].codes != {}
    ensures found.Some? ==> found.value == entries[userId].codes
  {
    if userId in entries && now < entries[userId].deadline && entries[userId].codes != {}
    then Some(entries[userId].codes)
    else None
  }

  /** DEL, then SADD and EXPIRE unless there is nothing to add. */
  function Put(entries: Entries, userId: UserId, codes: set<string>, now: Time, ttl: nat): Entries {
    if codes == {} then entries - {userId} else entries[userId := Entry(codes, now + ttl)]
  }

  function Invalidate(entries: Entries, userId: UserId): Entries {
    entries - {userId}
  }

  /**
   What FlushAll's loop leaves of a user's set: it was there at the start, or other requests stored it before
   some batch, and neither that batch nor a later one had its key.
   */
  ghost predicate Survives(entries: Entries, fills: seq<Entries>, batches: seq<set<UserId>>, userId: UserId,
                           entry: Entry)
    requires |fills| == |batches|
  {
    || (userId in entries && entries[userId] == entry && forall j | 0 <= j < |batches| :: userId !in batches[j])
    || exists i :: 0 <= i < |fills| && userId in fills[i] && fills[i][userId] == entry && LaterMiss(batches, userId, i)
  }

  predicate LaterMiss(batches: seq<set<UserId>>, userId: UserId, i: nat) {
    forall j | i <= j < |batches| :: userId !in batches[j]
  }

  /**
   FlushAll's loop over the batches of keys that SCAN returns until its cursor has been round; `fills[i]` is
   what other requests store before batch i is deleted.  A batch may be empty or repeat keys.  A full round
   returns every key that is there throughout, and then nothing cached before the flush is left.
   */
  method FlushAll(entries: Entries, fills: seq<Entries>, batches: seq<set<UserId>>) returns (flushed: Entries)
    requires |fills| == |batches|
    ensures forall u | u in flushed :: Survives(entries, fills, batches, u, flushed[u])
    ensures forall u | u in entries && LaterMiss(batches, u, 0) :: u in flushed
    ensures (forall u | u in entries :: !LaterMiss(batches, u, 0)) ==>
              forall u | u in flushed :: exists i :: 0 <= i < |fills| && u in fills[i] && fills[i][u] == flushed[u]
  {
    flushed := entries;
    for cursor := 0 to |batches|
      invariant forall u | u in flushed :: Survives(entries, fills[..cursor], batches[..cursor], u, flushed[u])
      invariant forall u | u in entries && LaterMiss(batches[..cursor], u, 0) :: u in flushed
    {
      ghost var before := flushed;
      flushed := flushed + fills[cursor];
      if batches[cursor] != {} {
        flushed := flushed - batches[cursor];
      }
      forall u | u in flushed
        ensures Survives(entries, fills[..cursor + 1], batches[..cursor + 1], u, flushed[u])
      {
        SurvivesBatch(entries, fills, batches, cursor, before, u, flushed[u]);
      }
    }
    assert fills[..|fills|] == fills && batches[..|batches|] == batches;
  }

  lemma SurvivesBatch(entries: Entries, fills: seq<Entries>, batches: seq<set<UserId>>, cursor: nat,
                      before: Entries, userId: UserId, entry: Entry)
    requires |fills| == |batches| && cursor < |batches| && userId !in batches[cursor]
    requires userId in before ==> Survives(entries, fills[..cursor], batches[..cursor], userId, before[userId])
    requires userId in fills[cursor] ==> entry == fills[cursor][userId]
    requires userId !in fills[cursor] ==> userId in before && entry == before[userId]
    ensures Survives(entries, fills[..cursor + 1], batches[..cursor + 1], userId, entry)
  {
    if userId in fills[cursor] {
      assert fills[..cursor + 1][cursor] == fills[cursor];
      assert LaterMiss(batches[..cursor + 1], userId, cursor);
    } else if i :| 0 <= i < cursor && userId in fills[..cursor][i] && fills[..cursor][i][userId] == entry
                   && LaterMiss(batches[..cursor], userId, i) {
      assert fills[..cursor + 1][i] == fills[..cursor][i];
      assert LaterMiss(batches[..cursor + 1], userId, i);
    }
  }
}
