/**
 * The key-value client repository: each client's serialized information is a
 * blob stored under a uid the caller supplies, with no expiry.
 */
module ClientRepo {

  import opened Wrappers
  import opened Bytes
  import opened Errors
  import opened Redis

  class ClientRepo {
    const db: Keyspace

    /** NewClientRepo */
    constructor (db: Keyspace)
      ensures this.db == db
    {
      this.db := db;
    }

    /** Store `info` under `uid` without expiry, replacing whatever was there. */
    method Create(uid: string, info: seq<byte>, fault: Option<Fault>) returns (err: Option<Error>)
      modifies db
      ensures db.now == old(db.now)
      ensures fault.Some? ==> err == Some(Wrap(WriteClient, Driver(fault.value))) && db.data == old(db.data)
      ensures fault.None? ==> err.None? && db.data == Put(old(db.data), db.now, uid, Blob(info), 0)
      ensures fault.None? ==> forall t :: Lookup(db.data, t, uid) == Some(Blob(info))
    {
      var e := db.Set(uid, Blob(info), 0, fault);
      if e.Some? {
        return Some(Wrap(WriteClient, e.value));
      }
      return None;
    }

    /** Remove `uid`; removing nothing is reported as `ErrClientNotFound`. */
    method Delete(uid: string, fault: Option<Fault>) returns (err: Option<Error>)
      modifies db
      ensures db.now == old(db.now)
      ensures fault.Some? ==> err == Some(Wrap(DeleteUser, Driver(fault.value))) && db.data == old(db.data)
      ensures fault.Some? ==> !Is(err.value, ErrClientNotFound)
      ensures fault.None? ==> db.data == Drop(old(db.data), uid)
      ensures fault.None? ==> (err.None? <==> old(Visible(db.data, db.now, uid)))
      ensures fault.None? && err.Some? ==> err.value == ErrClientNotFound
      ensures forall t, k :: k != uid ==> Lookup(db.data, t, k) == old(Lookup(db.data, t, k))
    {
      var n, e := db.Del(uid, fault);
      if e.Some? {
        return Some(Wrap(DeleteUser, e.value));
      }
      if n == 0 {
        return Some(ErrClientNotFound);
      }
      return None;
    }
  }

  /** A Create on a uid that already holds a client overwrites it: the old blob
      is gone, the new one is visible for ever, and no other uid moves. */
  lemma CreateOverwrites(data: Data, now: int, uid: string, before: seq<byte>, info: seq<byte>, t: int)
    requires Lookup(data, now, uid) == Some(Blob(before))
    ensures Lookup(Put(data, now, uid, Blob(info), 0), t, uid) == Some(Blob(info))
    ensures info != before ==> Lookup(Put(data, now, uid, Blob(info), 0), t, uid) != Some(Blob(before))
    ensures forall k :: k != uid ==> Lookup(Put(data, now, uid, Blob(info), 0), t, k) == Lookup(data, t, k)
  {
  }

  /** Deleting a uid that is not live changes nothing any GET sees, then or
      at any later instant. */
  lemma DeleteAbsentChangesNothingVisible(data: Data, now: int, uid: string)
    requires !Visible(data, now, uid)
    ensures forall t, k :: now <= t ==> Lookup(Drop(data, uid), t, k) == Lookup(data, t, k)
  {
  }
}
