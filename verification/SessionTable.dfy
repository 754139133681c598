/**
 The sessions table and its queries.  A table maps never-reused ids to rows; each query is
 one atomic function from table to table.
 */
module SessionTable {
  import opened Types

  datatype Session = Session(
    userId: UserId,
    tokenHash: Hash,
    expiresAt: Time,
    revoked: bool,
    revokedAt: Option<Time>,
    lastActivityAt: Time,
    createdAt: Time)
  {
    predicate Active(now: Time) {
      !revoked && expiresAt > now
    }

    /** COALESCE(revoked_at, created_at) */
    function EndedAt(): Time {
      match revokedAt
      case Some(at) => at
      case None => createdAt
    }

    /** The WHERE clause shared by the SELECT and the DELETE of the cleanup. */
    predicate Doomed(cutoff: int) {
      expiresAt < cutoff || (revoked && EndedAt() < cutoff)
    }

    function Revoke(at: Time): Session {
      if revoked then this else this.(revoked := true, revokedAt := Some(at))
    }
  }

  type Table = map<SessionId, Session>

  function RevokeWithTimestamp(rows: Table, id: SessionId, at: Time): Table {
    if id in rows then rows[id := rows[id].Revoke(at)] else rows
  }

  function RevokeAllByUser(rows: Table, userId: UserId, at: Time): Table {
    map id | id in rows :: if rows[id].userId == userId then rows[id].Revoke(at) else rows[id]
  }

  function RevokeAllByUserExceptCurrent(rows: Table, userId: UserId, current: SessionId, at: Time): Table {
    map id | id in rows :: if rows[id].userId == userId && id != current then rows[id].Revoke(at) else rows[id]
  }

  /** The rows TouchActivity would update: at most one, and never a revoked one. */
  predicate Touchable(rows: Table, id: SessionId) {
    id in rows && !rows[id].revoked
  }

  function TouchActivity(rows: Table, id: SessionId, at: Time): Table {
    if Touchable(rows, id) then rows[id := rows[id].(lastActivityAt := at)] else rows
  }

  function DoomedIds(rows: Table, cutoff: int): set<SessionId> {
    set id | id in rows && rows[id].Doomed(cutoff)
  }

  function Purge(rows: Table, cutoff: int): Table {
    rows - DoomedIds(rows, cutoff)
  }

  /** The lowest id at most `upTo` whose row carries the hash; `activeAt` restricts the search to active rows. */
  function FindByHash(rows: Table, tokenHash: Hash, activeAt: Option<Time>, upTo: nat): (found: Option<SessionId>)
    ensures found.Some? ==>
              && found.value in rows && rows[found.value].tokenHash == tokenHash
              && (activeAt.Some? ==> rows[found.value].Active(activeAt.value))
    ensures found.None? ==>
              forall id | id in rows && id <= upTo ::
                rows[id].tokenHash == tokenHash ==> activeAt.Some? && !rows[id].Active(activeAt.value)
  {
    var earlier := if upTo == 0 then None else FindByHash(rows, tokenHash, activeAt, upTo - 1);
    if earlier.Some? then earlier
    else if upTo in rows && rows[upTo].tokenHash == tokenHash && (activeAt.Some? ==> rows[upTo].Active(activeAt.value))
    then Some(upTo)
    else None
  }
}
