/** The process-wide cache of remote key sets (src/jwt.ts, `fetchJwks`):
    entries keyed by URL, each with the key set and the time it expires. The
    key-set document (section 5 of RFC 7517) is kept opaque, the HTTP fetch
    and `JWKS.asKeyStore` are parameters, and time is milliseconds. */
module Jwks {
  import opened Wrappers
  import opened Json
  import opened Constants

  /** A key store built from a fetched key-set document. */
  datatype KeyStore = KeyStore(document: Value)

  /** A cache entry: the keys and the instant after which they are stale. */
  datatype CacheEntry = CacheEntry(keys: KeyStore, expires: int)

  /** What `axios.get(url)` yields: an exception, or a response and its data. */
  datatype Fetched = FetchThrew | Response(data: Value)

  /** Why `fetchJwks` throws. */
  datatype JwksFault = UrlRequired | FetchFailed | NoKeyData(url: string) | InvalidKeySet

  /** The entry for `url` can be served at `now`: `expires` is strictly after now. */
  predicate Fresh(cache: map<string, CacheEntry>, url: string, now: int)
  {
    url in cache && cache[url].expires > now
  }

  /** The outcome of one `fetchJwks` call and the cache it leaves. */
  datatype Step = Step(result: Outcome<KeyStore, JwksFault>, cache: map<string, CacheEntry>)

  /** `fetchJwks(url)` at time `now`: serve a fresh entry, or fetch the
      document and replace the entry with its keys for `JwksTtl`. */
  function FetchStep(cache: map<string, CacheEntry>, url: string, now: int,
                     get: string -> Fetched, isKeySet: Value -> bool): (s: Step)
    ensures url == "" ==> s == Step(Threw(UrlRequired), cache)
    ensures url != "" && Fresh(cache, url, now) ==> s == Step(Returned(cache[url].keys), cache)
    ensures s.result.Threw? ==> s.cache == cache
    ensures s.result.Returned? && !Fresh(cache, url, now) ==>
      s.cache == cache[url := CacheEntry(s.result.value, now + JwksTtl)]
    ensures s.result.Returned? && !Fresh(cache, url, now) ==>
      get(url).Response? && s.result.value == KeyStore(get(url).data)
    ensures forall u :: u != url ==> (u in s.cache <==> u in cache) && (u in cache ==> s.cache[u] == cache[u])
    ensures url != "" && !Fresh(cache, url, now) && get(url).FetchThrew? ==> s == Step(Threw(FetchFailed), cache)
    ensures url != "" && !Fresh(cache, url, now) && get(url).Response? && !Truthy(get(url).data) ==>
      s == Step(Threw(NoKeyData(url)), cache)
    ensures url != "" && !Fresh(cache, url, now) && get(url).Response? && Truthy(get(url).data) && !isKeySet(get(url).data) ==>
      s == Step(Threw(InvalidKeySet), cache)
    ensures url != "" && !Fresh(cache, url, now) && get(url).Response? && Truthy(get(url).data) && isKeySet(get(url).data) ==>
      s == Step(Returned(KeyStore(get(url).data)), cache[url := CacheEntry(KeyStore(get(url).data), now + JwksTtl)])
    ensures s.result.Returned? <==>
      url != "" && (Fresh(cache, url, now) || (get(url).Response? && Truthy(get(url).data) && isKeySet(get(url).data)))
  {
    if url == "" then Step(Threw(UrlRequired), cache)
    else if Fresh(cache, url, now) then Step(Returned(cache[url].keys), cache)
    else
      match get(url)
      case FetchThrew => Step(Threw(FetchFailed), cache)
      case Response(data) =>
        if !Truthy(data) then Step(Threw(NoKeyData(url)), cache)
        else if !isKeySet(data) then Step(Threw(InvalidKeySet), cache)
        else
          var keys := KeyStore(data);
          Step(Returned(keys), cache[url := CacheEntry(keys, now + JwksTtl)])
  }

  /** A fresh entry is served without looking at the network: any two
      fetchers give the same step. */
  lemma HitIgnoresNetwork(cache: map<string, CacheEntry>, url: string, now: int,
                          get1: string -> Fetched, get2: string -> Fetched, isKeySet: Value -> bool)
    requires Fresh(cache, url, now)
    ensures FetchStep(cache, url, now, get1, isKeySet) == FetchStep(cache, url, now, get2, isKeySet)
  {
  }

  /** After a fetch fills the entry, every call strictly within the next six
      hours is served from the cache, whatever the network would say. */
  lemma FilledEntryServes(cache: map<string, CacheEntry>, url: string, now: int, later: int,
                          get: string -> Fetched, get2: string -> Fetched, isKeySet: Value -> bool)
    requires FetchStep(cache, url, now, get, isKeySet).result.Returned?
    requires !Fresh(cache, url, now) && now <= later < now + JwksTtl
    ensures var s := FetchStep(cache, url, now, get, isKeySet);
      FetchStep(s.cache, url, later, get2, isKeySet) == s
  {
  }

  /** At or after the expiry the entry is fetched again. */
  lemma ExpiredEntryRefetched(cache: map<string, CacheEntry>, url: string, now: int,
                              get: string -> Fetched, isKeySet: Value -> bool)
    requires url != "" && url in cache && cache[url].expires <= now
    ensures FetchStep(cache, url, now, get, isKeySet).result.Returned? ==>
      get(url).Response? && FetchStep(cache, url, now, get, isKeySet).cache[url].expires == now + JwksTtl
  {
  }

  /** The module-level `jwksCache`. */
  class JwksCache {
    var entries: map<string, CacheEntry>

    constructor ()
      ensures entries == map[]
    {
      entries := map[];
    }

    /** `fetchJwks(url)`, updating the cache in place. */
    method Fetch(url: string, now: int, get: string -> Fetched, isKeySet: Value -> bool)
      returns (r: Outcome<KeyStore, JwksFault>)
      modifies this
      ensures Step(r, entries) == FetchStep(old(entries), url, now, get, isKeySet)
    {
      if url == "" {
        return Threw(UrlRequired);
      }
      if url in entries && entries[url].expires > now {
        return Returned(entries[url].keys);
      }
      var response := get(url);
      if response.FetchThrew? {
        return Threw(FetchFailed);
      }
      if !Truthy(response.data) {
        return Threw(NoKeyData(url));
      }
      if !isKeySet(response.data) {
        return Threw(InvalidKeySet);
      }
      var keys := KeyStore(response.data);
      entries := entries[url := CacheEntry(keys, now + JwksTtl)];
      r := Returned(keys);
    }
  }
}
