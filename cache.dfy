/**
 * The server's in-memory cache: a map from key to `{ts, data}` with a
 * 24-hour lifetime, checked lazily on lookup. The clock is a parameter
 * (`now`, in milliseconds) instead of a call to `Date.now()`.
 */
module Cache {
  import opened Wrappers

  /** `CACHE_TTL_MS`: one day in milliseconds. */
  const TTL_MS: nat := 1000 * 60 * 60 * 24

  /** The `{ts, data}` record stored under a key. */
  datatype Entry<T> = Entry(ts: int, data: T)

  /** An entry is stale only when its age is strictly above the lifetime. */
  predicate Expired<T>(e: Entry<T>, now: int) {
    now - e.ts > TTL_MS
  }

  /** `getCache` on the map as a value: what it returns and the map it leaves behind. */
  function Fetch<T>(entries: map<string, Entry<T>>, key: string, now: int): (r: (Option<T>, map<string, Entry<T>>))
    ensures r.0.Some? <==> key in entries && !Expired(entries[key], now)
    ensures r.0.Some? ==> r.0.value == entries[key].data && r.1 == entries
    ensures r.0.None? ==> r.1 == entries - {key}
  {
    if key !in entries then (None, entries)
    else if Expired(entries[key], now) then (None, entries - {key})
    else (Some(entries[key].data), entries)
  }

  /** `setCache` on the map as a value. */
  function Store<T>(entries: map<string, Entry<T>>, key: string, now: int, data: T): (r: map<string, Entry<T>>)
    ensures key in r && r[key] == Entry(now, data)
    ensures r.Keys == entries.Keys + {key}
    ensures forall k :: k in entries && k != key ==> r[k] == entries[k]
  {
    entries[key := Entry(now, data)]
  }

  /** A lookup never touches another key, and only ever removes the one it looks up. */
  lemma FetchKeepsOthers<T>(entries: map<string, Entry<T>>, key: string, now: int, other: string)
    requires other != key
    ensures other in Fetch(entries, key, now).1 <==> other in entries
    ensures other in entries ==> Fetch(entries, key, now).1[other] == entries[other]
    ensures Fetch(entries, key, now).1.Keys <= entries.Keys
  {
  }

  /** A lookup hits exactly when the key is present and not stale. */
  lemma FetchHitIff<T>(entries: map<string, Entry<T>>, key: string, now: int)
    ensures Fetch(entries, key, now).0.Some? <==> key in entries && now - entries[key].ts <= TTL_MS
    ensures Fetch(entries, key, now).0.Some? ==> Fetch(entries, key, now).0.value == entries[key].data
  {
  }

  /** Looking the same key up again at the same instant changes nothing more. */
  lemma FetchIdempotent<T>(entries: map<string, Entry<T>>, key: string, now: int)
    ensures var (r, after) := Fetch(entries, key, now);
      Fetch(after, key, now) == (r, after)
  {
  }

  /** A hit stays a hit at any earlier instant. */
  lemma FetchHitEarlier<T>(entries: map<string, Entry<T>>, key: string, now: int, earlier: int)
    requires earlier <= now && Fetch(entries, key, now).0.Some?
    ensures Fetch(entries, key, earlier) == Fetch(entries, key, now)
  {
  }

  /** What was stored at `at` is found again up to and including one lifetime later. */
  lemma StoreThenFetch<T>(entries: map<string, Entry<T>>, key: string, at: int, data: T, now: int)
    requires now - at <= TTL_MS
    ensures Fetch(Store(entries, key, at, data), key, now) == (Some(data), Store(entries, key, at, data))
  {
  }

  /** After more than one lifetime it is gone, and the lookup drops exactly that key. */
  lemma StoreThenExpire<T>(entries: map<string, Entry<T>>, key: string, at: int, data: T, now: int)
    requires now - at > TTL_MS
    ensures Fetch(Store(entries, key, at, data), key, now) == (None, entries - {key})
  {
    assert Store(entries, key, at, data) - {key} == entries - {key};
  }

  /** Storing never touches another key. */
  lemma StoreKeepsOthers<T>(entries: map<string, Entry<T>>, key: string, now: int, data: T, other: string)
    requires other != key
    ensures other in Store(entries, key, now, data) <==> other in entries
    ensures other in entries ==> Store(entries, key, now, data)[other] == entries[other]
  {
  }

  /** The module-level `cache` Map together with `getCache` and `setCache`. */
  class TtlCache<T> {
    var entries: map<string, Entry<T>>

    /** `new Map()`. */
    constructor ()
      ensures entries == map[]
    {
      entries := map[];
    }

    /**
     * `getCache(key)` at time `now`: null for a missing key; the data of a
     * fresh entry; null for a stale entry, which is deleted.
     */
    method Get(key: string, now: int) returns (r: Option<T>)
      modifies this
      ensures (r, entries) == Fetch(old(entries), key, now)
      ensures key !in old(entries) ==> r == None && entries == old(entries)
      ensures key in old(entries) && now - old(entries)[key].ts <= TTL_MS ==>
        r == Some(old(entries)[key].data) && entries == old(entries)
      ensures key in old(entries) && now - old(entries)[key].ts > TTL_MS ==>
        r == None && entries == old(entries) - {key}
    {
      if key !in entries {
        return None;
      }
      var v := entries[key];
      if now - v.ts > TTL_MS {
        entries := entries - {key};
        return None;
      }
      r := Some(v.data);
    }

    /** `setCache(key, data)` at time `now`: only `key` changes, to `{ts: now, data}`. */
    method Set(key: string, data: T, now: int)
      modifies this
      ensures entries == Store(old(entries), key, now, data)
      ensures key in entries && entries[key] == Entry(now, data)
      ensures forall k :: k != key ==> (k in entries <==> k in old(entries))
      ensures forall k :: k != key && k in old(entries) ==> entries[k] == old(entries)[k]
    {
      entries := entries[key := Entry(now, data)];
    }
  }
}
