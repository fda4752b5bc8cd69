/** The in-memory TTL cache (apps/bot/src/utils/cache.ts). The clock is the explicit `now`
    parameter (milliseconds); a cached value is never the JavaScript `null`, which is the
    "absent" answer of `get`. */
module Cache {
  import opened Wrappers

  /** The keys the bot uses are strings (`giveaway_list_…`, record ids). */
  type Key = string

  /** A stored value and its expiry time; `None` is the `null` expiry of an entry that never
      expires. */
  datatype Entry<V> = Entry(value: V, expiryTime: Option<int>)

  /** `expiryTime && now > expiryTime`: a null or zero expiry time is falsy and never expires;
      at exactly the expiry time the entry is still live. */
  predicate Expired(expiryTime: Option<int>, now: int) {
    expiryTime.Some? && expiryTime.value != 0 && now > expiryTime.value
  }

  /** The expiry time `set` records: `now + expiry` for a positive `expiry`, else none. */
  function ExpiryFor(expiry: int, now: int): (t: Option<int>)
    ensures expiry > 0 ==> t == Some(now + expiry)
    ensures expiry <= 0 ==> t.None?
  {
    if expiry > 0 then Some(now + expiry) else None
  }

  /** What `get(key)` answers at time `now`. */
  function Lookup<V>(entries: map<Key, Entry<V>>, key: Key, now: int): (r: Option<V>)
    ensures r.Some? <==> key in entries && !Expired(entries[key].expiryTime, now)
    ensures r.Some? ==> r.value == entries[key].value
  {
    if key !in entries then None
    else if Expired(entries[key].expiryTime, now) then None
    else Some(entries[key].value)
  }

  /** The map after `get(key)`: an expired entry is evicted, nothing else changes. */
  function AfterGet<V>(entries: map<Key, Entry<V>>, key: Key, now: int): (m: map<Key, Entry<V>>)
    ensures key in entries && Expired(entries[key].expiryTime, now) ==> m == entries - {key}
    ensures !(key in entries && Expired(entries[key].expiryTime, now)) ==> m == entries
  {
    if key in entries && Expired(entries[key].expiryTime, now) then entries - {key} else entries
  }

  /** The map after `cleanUp()` at time `now`: exactly the entries that have not expired. */
  function Sweep<V>(entries: map<Key, Entry<V>>, now: int): (m: map<Key, Entry<V>>)
    ensures forall k :: k in m <==> k in entries && !Expired(entries[k].expiryTime, now)
    ensures forall k :: k in m ==> m[k] == entries[k]
  {
    map k | k in entries && !Expired(entries[k].expiryTime, now) :: entries[k]
  }

  class CacheManager<V> {
    var entries: map<Key, Entry<V>>

    constructor()
      ensures entries == map[]
    {
      entries := map[];
    }

    /** `set(key, value, expiry = 0)`: stores or overwrites the entry of `key`. */
    method Set(key: Key, value: V, expiry: int, now: int)
      modifies this
      ensures entries == old(entries)[key := Entry(value, ExpiryFor(expiry, now))]
    {
      entries := entries[key := Entry(value, ExpiryFor(expiry, now))];
    }

    /** `get(key)`: the live value or none; an expired entry is deleted on the way. */
    method Get(key: Key, now: int) returns (r: Option<V>)
      modifies this
      ensures r == Lookup(old(entries), key, now)
      ensures entries == AfterGet(old(entries), key, now)
    {
      if key !in entries {
        return None;
      }
      var entry := entries[key];
      if Expired(entry.expiryTime, now) {
        Delete(key);
        return None;
      }
      r := Some(entry.value);
    }

    /** `delete(key)`: removes the entry of `key`; no-op when there is none. */
    method Delete(key: Key)
      modifies this
      ensures entries == old(entries) - {key}
    {
      if key !in entries {
        return;
      }
      entries := entries - {key};
    }

    /** `has(key)`: `get(key) !== null`, with the same eviction. */
    method Has(key: Key, now: int) returns (b: bool)
      modifies this
      ensures b == Lookup(old(entries), key, now).Some?
      ensures entries == AfterGet(old(entries), key, now)
    {
      var r := Get(key, now);
      b := r.Some?;
    }

    method Clear()
      modifies this
      ensures entries == map[]
      ensures Size() == 0
    {
      entries := map[];
    }

    /** `size()`: the number of stored entries, expired ones included until evicted. */
    function Size(): (n: nat)
      reads this
      ensures n == 0 <==> entries == map[]
    {
      |entries|
    }

    /** `cleanUp()`: one pass over the stored keys that deletes every expired entry. */
    method CleanUp(now: int)
      modifies this
      ensures entries == Sweep(old(entries), now)
    {
      var remaining := entries.Keys;
      while remaining != {}
        invariant remaining <= old(entries).Keys
        invariant forall k :: k in entries <==>
          k in old(entries) && (k in remaining || !Expired(old(entries)[k].expiryTime, now))
        invariant forall k :: k in entries ==> entries[k] == old(entries)[k]
        decreases remaining
      {
        var key :| key in remaining;
        if Expired(entries[key].expiryTime, now) {
          Delete(key);
        }
        remaining := remaining - {key};
      }
      assert entries == Sweep(old(entries), now);
    }
  }

  /** A value just set is returned by every `get` up to and including its expiry time, and
      forever when set without a positive expiry. */
  lemma SetThenGet<V>(entries: map<Key, Entry<V>>, key: Key, value: V, expiry: int, setAt: int, now: int)
    requires expiry <= 0 || now <= setAt + expiry
    ensures Lookup(entries[key := Entry(value, ExpiryFor(expiry, setAt))], key, now) == Some(value)
  {
  }

  /** After its expiry time a value set with a positive expiry is gone (unless the expiry time
      is 0, which is falsy and so never expires). */
  lemma SetThenGetLate<V>(entries: map<Key, Entry<V>>, key: Key, value: V, expiry: int, setAt: int, now: int)
    requires expiry > 0 && setAt + expiry != 0 && now > setAt + expiry
    ensures Lookup(entries[key := Entry(value, ExpiryFor(expiry, setAt))], key, now).None?
  {
  }

  /** A live `get` changes nothing; `get` never changes what later lookups of any key answer
      at the same time. */
  lemma GetIsObservablyPure<V>(entries: map<Key, Entry<V>>, key: Key, now: int)
    ensures Lookup(entries, key, now).Some? ==> AfterGet(entries, key, now) == entries
    ensures forall k :: Lookup(AfterGet(entries, key, now), k, now) == Lookup(entries, k, now)
  {
  }

  /** Deleting a key makes it absent and leaves every other key's answer alone. */
  lemma DeleteOnlyThatKey<V>(entries: map<Key, Entry<V>>, key: Key, now: int)
    ensures Lookup(entries - {key}, key, now).None?
    ensures forall k :: k != key ==> Lookup(entries - {key}, k, now) == Lookup(entries, k, now)
  {
  }

  /** `cleanUp` changes no answer of `get` at the same time, and is idempotent. */
  lemma SweepKeepsAnswers<V>(entries: map<Key, Entry<V>>, now: int)
    ensures forall k :: Lookup(Sweep(entries, now), k, now) == Lookup(entries, k, now)
    ensures Sweep(Sweep(entries, now), now) == Sweep(entries, now)
  {
  }

  /** `size()` counts expired entries too: sweeping never grows it, and shrinks it exactly when
      some stored entry has expired. */
  lemma {:induction false} SweepSize<V>(entries: map<Key, Entry<V>>, now: int)
    ensures |Sweep(entries, now)| <= |entries|
    ensures |Sweep(entries, now)| == |entries| <==> forall k :: k in entries ==> !Expired(entries[k].expiryTime, now)
  {
    var swept := Sweep(entries, now);
    var expired := entries.Keys - swept.Keys;
    assert entries.Keys == swept.Keys + expired;
    assert swept.Keys !! expired;
    assert |entries.Keys| == |swept.Keys| + |expired|;
    assert expired == {} <==> forall k :: k in entries ==> !Expired(entries[k].expiryTime, now) by {
      if expired != {} {
        var k :| k in expired;
        assert k in entries && Expired(entries[k].expiryTime, now);
      }
    }
  }
}
