/**
 * The repository of processed request identifiers (idempotency keys). A key
 * is committed with the value `true` and the configured ttl; it counts as
 * present while the keyspace reports exactly one live match for it.
 */
module IdempotencyKeyRepo {

  import opened Wrappers
  import opened Errors
  import opened Redis

  class RequestIdempotencyKeyRepo {
    const db: Keyspace
    const ttl: int

    /** NewIdempotencyKeyRepo */
    constructor (db: Keyspace, ttl: int)
      ensures this.db == db && this.ttl == ttl
    {
      this.db := db;
      this.ttl := ttl;
    }

    /** Whether `uid` has been committed and not yet expired. A failing query
        yields `false` with a wrapped error; the keyspace is only read. */
    method IsExist(uid: string, fault: Option<Fault>) returns (present: bool, err: Option<Error>)
      ensures fault.Some? ==> !present && err == Some(Wrap(GetFromRepository, Driver(fault.value)))
      ensures fault.None? ==> err.None? && (present <==> Visible(db.data, db.now, uid))
    {
      var n, e := db.Exists(uid, fault);
      if e.Some? {
        return false, Some(Wrap(GetFromRepository, e.value));
      }
      if n != 1 {
        return false, None;
      }
      return true, None;
    }

    /** Write `true` under `uid` with the repository's ttl; a driver error is
        returned as it is. */
    method Commit(uid: string, fault: Option<Fault>) returns (err: Option<Error>)
      modifies db
      ensures db.now == old(db.now)
      ensures fault.Some? ==> err == Some(Driver(fault.value)) && db.data == old(db.data)
      ensures fault.None? ==> err.None? && db.data == Put(old(db.data), db.now, uid, Flag(true), ttl)
      ensures fault.None? ==> Lookup(db.data, db.now, uid) == Some(Flag(true))
      ensures fault.None? ==> forall t :: Visible(db.data, t, uid) <==> ttl <= 0 || t < db.now + ttl
      ensures forall k :: k != uid ==> Lookup(db.data, db.now, k) == old(Lookup(db.data, db.now, k))
    {
      err := db.Set(uid, Flag(true), ttl, fault);
    }
  }

  /** A committed key is visible exactly until `ttl` units after the commit
      (for ever when the ttl is not positive), and a second commit of the same
      key replaces the first one's expiry with a later one. */
  lemma RecommitRefreshesExpiry(data: Data, t1: int, t2: int, uid: string, ttl: int, t: int)
    requires 0 < ttl && t1 <= t2
    requires t1 + ttl <= t < t2 + ttl
    ensures !Visible(Put(data, t1, uid, Flag(true), ttl), t, uid)
    ensures Visible(Put(Put(data, t1, uid, Flag(true), ttl), t2, uid, Flag(true), ttl), t, uid)
  {
    PutTwice(data, t1, t2, uid, Flag(true), Flag(true), ttl);
  }
}
