/**
 The key-value store the services talk to: integer values with an optional expiry instant in
 milliseconds. A key is live strictly before its expiry instant; an expired key counts as absent.
 Every command sees the server's clock as `now`.
 */
module Redis {
  import opened Wrappers

  datatype Entry = Entry(value: int, expiresAt: Option<int>)

  datatype RedisError = InvalidExpireTime

  type Store = map<string, Entry>

  function Lookup(store: Store, key: string): Option<Entry> {
    if key in store then Some(store[key]) else None
  }

  predicate Live(entry: Option<Entry>, now: int) {
    entry.Some? && (entry.value.expiresAt.None? || now < entry.value.expiresAt.value)
  }

  /** INCR: a live key keeps its expiry, an absent one starts at one without any. */
  function Incremented(entry: Option<Entry>, now: int): Entry {
    if Live(entry, now) then entry.value.(value := entry.value.value + 1) else Entry(1, None)
  }

  /** TTL: -2 for an absent key, -1 for one without expiry, else the rounded remaining seconds. */
  function TimeToLive(entry: Option<Entry>, now: int): int {
    if !Live(entry, now) then -2
    else if entry.value.expiresAt.None? then -1
    else (entry.value.expiresAt.value - now + 500) / 1000
  }

  /** EXPIRE: a time to live of zero or less deletes the key. */
  function Expiring(entry: Option<Entry>, seconds: int, now: int): Option<Entry> {
    if !Live(entry, now) then entry
    else if seconds <= 0 then None
    else Some(entry.value.(expiresAt := Some(now + seconds * 1000)))
  }

  function Put(store: Store, key: string, entry: Option<Entry>): (updated: Store)
    ensures Lookup(updated, key) == entry
    ensures forall k :: k != key ==> Lookup(updated, k) == Lookup(store, k)
  {
    match entry
    case None => store - {key}
    case Some(e) => store[key := e]
  }

  class RedisClient {
    var store: Store

    constructor (store: Store)
      ensures this.store == store
    {
      this.store := store;
    }

    /** INCR and TTL in one transaction. */
    method IncrAndTtl(key: string, now: int) returns (count: int, ttl: int)
      modifies this
      ensures store == old(store)[key := Incremented(Lookup(old(store), key), now)]
      ensures count == store[key].value && ttl == TimeToLive(Some(store[key]), now)
    {
      store := store[key := Incremented(Lookup(store, key), now)];
      count, ttl := store[key].value, TimeToLive(Some(store[key]), now);
    }

    method Expire(key: string, seconds: int, now: int)
      modifies this
      ensures store == Put(old(store), key, Expiring(Lookup(old(store), key), seconds, now))
    {
      store := Put(store, key, Expiring(Lookup(store, key), seconds, now));
    }

    /** SET with EX: a time to live of zero or less is an error. */
    method SetEx(key: string, value: int, seconds: int, now: int) returns (r: Result<(), RedisError>)
      modifies this
      ensures seconds > 0 ==> r == Ok(()) && store == old(store)[key := Entry(value, Some(now + seconds * 1000))]
      ensures seconds <= 0 ==> r == Err(InvalidExpireTime) && store == old(store)
    {
      if seconds <= 0 {
        return Err(InvalidExpireTime);
      }
      store := store[key := Entry(value, Some(now + seconds * 1000))];
      r := Ok(());
    }

    method Del(key: string)
      modifies this
      ensures store == Put(old(store), key, None)
    {
      store := Put(store, key, None);
    }

    method Exists(key: string, now: int) returns (found: bool)
      ensures found == Live(Lookup(store, key), now)
    {
      found := Live(Lookup(store, key), now);
    }

    method Get(key: string, now: int) returns (value: Option<int>)
      ensures value == if Live(Lookup(store, key), now) then Some(store[key].value) else None
    {
      value := if Live(Lookup(store, key), now) then Some(store[key].value) else None;
    }
  }
}
