/**
 * The Redis keyspace both repositories talk to, at the interface the go-redis
 * client offers them: EXISTS, SET with a time-to-live, DEL. The store is a map
 * from key to a value and an optional expiry instant, read against an explicit
 * clock `now`. A key is visible while it has no expiry or `now` is before its
 * expiry; an expired entry may still sit in the map (Redis expires lazily) but
 * no command sees it. Every command takes an injected `fault`: `Some` means the
 * driver reported an error, in which case nothing was written.
 */
module Redis {

  import opened Wrappers
  import opened Bytes
  import opened Errors

  datatype Value = Flag(b: bool) | Blob(bytes: seq<byte>)

  datatype Entry = Entry(value: Value, expiry: Option<int>)

  type Data = map<string, Entry>

  predicate Visible(data: Data, now: int, key: string)
  {
    key in data && (data[key].expiry.None? || now < data[key].expiry.value)
  }

  /** The value a GET would return at instant `now`. */
  function Lookup(data: Data, now: int, key: string): Option<Value>
  {
    if Visible(data, now, key) then Some(data[key].value) else None
  }

  /** go-redis `Set(ctx, key, value, ttl)`: a positive ttl sets an expiry,
      zero (or any other non-positive duration) stores the key without one. */
  function ExpiryFor(now: int, ttl: int): Option<int>
  {
    if ttl > 0 then Some(now + ttl) else None
  }

  /** SET: overwrite `key` with `value` and a fresh expiry. */
  function Put(data: Data, now: int, key: string, value: Value, ttl: int): (d: Data)
    ensures forall t {:trigger Visible(d, t, key)} ::
      Visible(d, t, key) <==> ttl <= 0 || t < now + ttl
    ensures forall t, k :: k != key ==> Lookup(d, t, k) == Lookup(data, t, k)
  {
    data[key := Entry(value, ExpiryFor(now, ttl))]
  }

  /** DEL: remove `key`, whether or not it was still live. */
  function Drop(data: Data, key: string): (d: Data)
    ensures forall t :: !Visible(d, t, key)
    ensures forall t, k :: k != key ==> Lookup(d, t, k) == Lookup(data, t, k)
  {
    data - {key}
  }

  /** After a SET at `now`, GET of the same key returns the new value until the
      ttl runs out and nothing after; GET of every other key is unaffected. */
  lemma PutThenLookup(data: Data, now: int, key: string, value: Value, ttl: int, t: int)
    requires now <= t
    ensures Lookup(Put(data, now, key, value, ttl), t, key)
         == (if ttl <= 0 || t < now + ttl then Some(value) else None)
    ensures forall k :: k != key ==>
      Lookup(Put(data, now, key, value, ttl), t, k) == Lookup(data, t, k)
  {
  }

  /** A second SET of a key replaces the first one entirely, expiry included. */
  lemma PutTwice(data: Data, t1: int, t2: int, key: string, v1: Value, v2: Value, ttl: int)
    ensures Put(Put(data, t1, key, v1, ttl), t2, key, v2, ttl) == Put(data, t2, key, v2, ttl)
  {
  }

  class Keyspace {
    var data: Data
    var now: int

    constructor (start: int)
      ensures data == map[] && now == start
    {
      data := map[];
      now := start;
    }

    predicate Live(key: string)
      reads this
    {
      Visible(data, now, key)
    }

    /** EXISTS key: the number of the given keys that are live, here 0 or 1. */
    method Exists(key: string, fault: Option<Fault>) returns (n: int, err: Option<Error>)
      ensures fault.Some? ==> n == 0 && err == Some(Driver(fault.value))
      ensures fault.None? ==> err.None? && (n == 1 <==> Live(key)) && (n == 0 <==> !Live(key))
    {
      if fault.Some? {
        return 0, Some(Driver(fault.value));
      }
      n := if Live(key) then 1 else 0;
      err := None;
    }

    /** SET key value with a ttl. */
    method Set(key: string, value: Value, ttl: int, fault: Option<Fault>) returns (err: Option<Error>)
      modifies this
      ensures now == old(now)
      ensures fault.Some? ==> err == Some(Driver(fault.value)) && data == old(data)
      ensures fault.None? ==> err.None? && data == Put(old(data), now, key, value, ttl)
    {
      if fault.Some? {
        return Some(Driver(fault.value));
      }
      data := data[key := Entry(value, ExpiryFor(now, ttl))];
      err := None;
    }

    /** DEL key: reports how many live keys it removed, 0 or 1. */
    method Del(key: string, fault: Option<Fault>) returns (n: int, err: Option<Error>)
      modifies this
      ensures now == old(now)
      ensures fault.Some? ==> n == 0 && err == Some(Driver(fault.value)) && data == old(data)
      ensures fault.None? ==> err.None? && data == Drop(old(data), key)
      ensures fault.None? ==> (n == 1 <==> old(Live(key))) && (n == 0 <==> !old(Live(key)))
    {
      if fault.Some? {
        return 0, Some(Driver(fault.value));
      }
      n := if Live(key) then 1 else 0;
      data := data - {key};
      err := None;
    }

    /** The passage of time: `dt` units elapse, nothing is written. */
    method Advance(dt: nat)
      modifies this
      ensures data == old(data) && now == old(now) + dt
    {
      now := now + dt;
    }
  }
}
