/**
 * The in-memory stand-in for Redis (internal/infrastructure/cache/redis.go):
 * a map from key to (value, expiration). Expiry is lazy: an entry whose
 * expiration the present instant is strictly after counts as absent, and
 * reads that meet such an entry delete it; a periodic sweep deletes them all.
 * The present instant is a parameter of every operation that reads the clock.
 */
module Cache {
  import opened Wrappers
  import opened Clock
  import opened Errors
  import opened Decimal

  datatype Item = Item(value: string, expiration: Time)

  /** `time.Now().After(item.expiration)`: an entry whose expiration is now is still alive. */
  predicate Expired(item: Item, now: Time) {
    After(now, item.expiration)
  }

  /** What a lookup at `now` sees for `key`. */
  function LiveValue(store: map<string, Item>, key: string, now: Time): (v: Option<string>)
    ensures v.Some? <==> key in store && now <= store[key].expiration
  {
    if key in store && !Expired(store[key], now) then Some(store[key].value) else None
  }

  /** The store after a read has met `key`: an expired entry is gone, nothing else changes. */
  function DropIfExpired(store: map<string, Item>, key: string, now: Time): (r: map<string, Item>)
    ensures r.Keys <= store.Keys
    ensures forall k :: k in r ==> r[k] == store[k]
    ensures forall k :: LiveValue(r, k, now) == LiveValue(store, k, now)
  {
    if key in store && Expired(store[key], now) then store - {key} else store
  }

  /** The store after the sweep: exactly the entries not expired at `now`. */
  function Swept(store: map<string, Item>, now: Time): (r: map<string, Item>)
    ensures forall k :: k in r <==> k in store && !Expired(store[k], now)
    ensures forall k :: k in r ==> r[k] == store[k]
  {
    map k | k in store && !Expired(store[k], now) :: store[k]
  }

  /**
   * Where Incr starts counting: the stored number, or 0 when the key is
   * absent or its value is not a number. Expiry is not consulted.
   */
  function CounterValue(store: map<string, Item>, key: string): (v: int)
    ensures InInt64(v)
    ensures key !in store ==> v == 0
  {
    if key in store then
      match ParseInt(store[key].value)
      case Some(n) => n
      case None => 0
    else 0
  }

  /** Sweeping changes no lookup made at the same instant. */
  lemma SweepKeepsLiveView(store: map<string, Item>, now: Time, key: string)
    ensures LiveValue(Swept(store, now), key, now) == LiveValue(store, key, now)
  {
  }

  /** A second sweep at the same instant removes nothing more. */
  lemma SweepIdempotent(store: map<string, Item>, now: Time)
    ensures Swept(Swept(store, now), now) == Swept(store, now)
  {
  }

  /** The text Incr stores reads back as the number it returned. */
  lemma IncrReadsBack(store: map<string, Item>, key: string, n: int, t: Time)
    requires InInt64(n)
    ensures CounterValue(store[key := Item(Format(n), t)], key) == n
  {
    ParseFormat(n);
  }

  class MemoryCache {
    var store: map<string, Item>

    constructor ()
      ensures store == map[]
    {
      store := map[];
    }

    /** Overwrites any entry for `key`; never fails. */
    method Set(key: string, value: string, ttl: Duration, now: Time) returns (err: Option<Error>)
      modifies this
      ensures err == None
      ensures store == old(store)[key := Item(value, now + ttl)]
    {
      store := store[key := Item(value, now + ttl)];
      err := None;
    }

    method Get(key: string, now: Time) returns (r: Result<string, Error>)
      modifies this
      ensures store == DropIfExpired(old(store), key, now)
      ensures key !in old(store) ==> r == Err(Text("key not found"))
      ensures key in old(store) && Expired(old(store)[key], now) ==> r == Err(Text("key expired"))
      ensures LiveValue(old(store), key, now).Some? ==> r == Ok(old(store)[key].value)
    {
      if key !in store {
        return Err(Text("key not found"));
      }
      var item := store[key];
      if Expired(item, now) {
        store := store - {key};
        return Err(Text("key expired"));
      }
      r := Ok(item.value);
    }

    /** Removes `key` if present; never fails. */
    method Delete(key: string) returns (err: Option<Error>)
      modifies this
      ensures err == None
      ensures store == old(store) - {key}
    {
      store := store - {key};
      err := None;
    }

    method Exists(key: string, now: Time) returns (present: bool, err: Option<Error>)
      modifies this
      ensures err == None
      ensures present <==> LiveValue(old(store), key, now).Some?
      ensures store == DropIfExpired(old(store), key, now)
    {
      err := None;
      if key !in store {
        return false, None;
      }
      if Expired(store[key], now) {
        store := store - {key};
        return false, None;
      }
      present := true;
    }

    /** Inserts only when no entry for `key` is stored, even an expired one. */
    method SetNX(key: string, value: string, ttl: Duration, now: Time) returns (stored: bool)
      modifies this
      ensures stored <==> key !in old(store)
      ensures store == if stored then old(store)[key := Item(value, now + ttl)] else old(store)
    {
      if key in store {
        return false;
      }
      store := store[key := Item(value, now + ttl)];
      stored := true;
    }

    /** Counts up from CounterValue and keeps the count for a day. */
    method Incr(key: string, now: Time) returns (n: int)
      modifies this
      ensures InInt64(n)
      ensures n == Succ64(CounterValue(old(store), key))
      ensures store == old(store)[key := Item(Format(n), now + 24 * Hour)]
    {
      var current := 0;
      if key in store {
        match ParseInt(store[key].value)
        case Some(v) => current := v;
        case None =>
      }
      n := Succ64(current);
      store := store[key := Item(Format(n), now + 24 * Hour)];
    }

    /** Moves the expiration of a stored entry, expired or not, and keeps its value. */
    method Expire(key: string, ttl: Duration, now: Time) returns (err: Option<Error>)
      modifies this
      ensures key !in old(store) ==> err == Some(Text("key not found")) && store == old(store)
      ensures key in old(store) ==> err == None && store == old(store)[key := Item(old(store)[key].value, now + ttl)]
    {
      if key !in store {
        return Some(Text("key not found"));
      }
      var item := store[key];
      store := store[key := item.(expiration := now + ttl)];
      err := None;
    }

    method Close() returns (err: Option<Error>)
      modifies this
      ensures err == None && store == map[]
    {
      store := map[];
      err := None;
    }

    /** One tick of the background sweep. */
    method CleanupExpired(now: Time)
      modifies this
      ensures store == Swept(old(store), now)
    {
      var pending := store.Keys;
      while pending != {}
        invariant pending <= old(store).Keys
        invariant forall k :: k in store <==> k in old(store) && (k in pending || !Expired(old(store)[k], now))
        invariant forall k :: k in store ==> store[k] == old(store)[k]
        decreases pending
      {
        var k :| k in pending;
        if Expired(store[k], now) {
          store := store - {k};
        }
        pending := pending - {k};
      }
      assert store.Keys == Swept(old(store), now).Keys;
    }
  }
}
