/** The client's `requestCache`: responses stored with the time they were
    stored, read back only while younger than `MAX_AGE`, a stale entry
    deleted when it is read, and removal of every key containing a
    pattern; plus the patterns the seat API calls remove before each
    request. `Date.now()` is the parameter `now`; the query string and the
    request body are passed already serialised (`URLSearchParams` and
    `JSON.stringify` are not modelled), as is every `encodeURIComponent`
    result. */
module RequestCache {
  import opened Wrappers
  import opened Strings

  /** `MAX_AGE`, in milliseconds. */
  const MAX_AGE: int := 5000

  /** `{ data, timestamp }`; the data is the response body. */
  datatype Entry = Entry(data: string, timestamp: int)

  type Store = map<string, Entry>

  /** What `getCache` answers: the data of an entry younger than
      `MAX_AGE`, and nothing otherwise. */
  function Lookup(c: Store, key: string, now: int): (r: Option<string>)
    ensures r.Some? <==> key in c && now - c[key].timestamp < MAX_AGE
    ensures r.Some? ==> r.value == c[key].data
  {
    if key in c && now - c[key].timestamp < MAX_AGE then Some(c[key].data) else None
  }

  /** What `getCache` leaves behind: a stale entry is deleted, a fresh
      one or a missing key leaves the cache as it was. */
  function AfterLookup(c: Store, key: string, now: int): (c': Store)
    ensures key in c && now - c[key].timestamp >= MAX_AGE ==> c' == c - {key}
    ensures !(key in c && now - c[key].timestamp >= MAX_AGE) ==> c' == c
  {
    if key in c && now - c[key].timestamp >= MAX_AGE then c - {key} else c
  }

  /** Reading is stable at a fixed time: a second read answers as the
      first, and leaves the cache as the first left it. An entry stored at
      `now` is read back at once and until `MAX_AGE` has passed. */
  lemma LookupProperties(c: Store, key: string, now: int, data: string, later: int)
    ensures Lookup(AfterLookup(c, key, now), key, now) == Lookup(c, key, now)
    ensures AfterLookup(AfterLookup(c, key, now), key, now) == AfterLookup(c, key, now)
    ensures now <= later < now + MAX_AGE ==> Lookup(c[key := Entry(data, now)], key, later) == Some(data)
    ensures later >= now + MAX_AGE ==> Lookup(c[key := Entry(data, now)], key, later) == None
    ensures forall k :: k != key ==> Lookup(AfterLookup(c, key, now), k, later) == Lookup(c, k, later)
  {
  }

  /** `createKey`: `method:url:query:body`, an absent query or body
      written as "". */
  function CreateKey(httpMethod: string, url: string, query: Option<string>, body: Option<string>): (k: string)
    ensures k == Join([httpMethod, url, if query.Some? then query.value else "",
                       if body.Some? then body.value else ""], ':')
  {
    httpMethod + ":" + url + ":" + (if query.Some? then query.value else "") + ":"
      + (if body.Some? then body.value else "")
  }

  /** The cache after `clearCache(pattern)`'s loop: exactly the keys that
      do not contain the pattern are left, with their entries. */
  function WithoutPattern(c: Store, pattern: string): (r: Store)
    ensures forall k :: k in r <==> k in c && !Contains(k, pattern)
    ensures forall k :: k in r ==> r[k] == c[k]
  {
    map k | k in c && !Contains(k, pattern) :: c[k]
  }

  /** The pattern `seatAPI.hold`, `book` and `release` remove before they
      post, for the encoded movie and city. */
  function SeatCallPattern(movie: string, city: string): string
  {
    "/seats/status?movie=" + movie + "&city=" + city
  }

  /** The pattern `seatAPI.invalidateCache` removes. */
  const STATUS_URL: string := "/seats/status"

  /** A key whose method and url are followed by ':' contains its url. */
  lemma KeyContainsUrl(httpMethod: string, url: string, query: Option<string>, body: Option<string>)
    ensures Contains(CreateKey(httpMethod, url, query, body), url)
  {
    var k := CreateKey(httpMethod, url, query, body);
    assert k[|httpMethod| + 1..|httpMethod| + 1 + |url|] == url;
    assert OccursAt(k, url, |httpMethod| + 1);
  }

  /** `invalidateCache` removes every cached status response, whatever its
      query and body. */
  lemma InvalidateRemovesStatusKeys(c: Store, httpMethod: string, query: Option<string>, body: Option<string>)
    ensures CreateKey(httpMethod, STATUS_URL, query, body) !in WithoutPattern(c, STATUS_URL)
  {
    KeyContainsUrl(httpMethod, STATUS_URL, query, body);
  }

  /** The hold, book and release patterns contain '?', while `createKey`
      joins url and query with ':'. So when the method, the query and the
      body hold no '?', these patterns remove no status key at all: the
      stale status response survives. */
  lemma SeatCallPatternMissesStatusKeys(c: Store, movie: string, city: string,
                                        httpMethod: string, query: Option<string>, body: Option<string>)
    requires '?' !in httpMethod
    requires query.Some? ==> '?' !in query.value
    requires body.Some? ==> '?' !in body.value
    requires CreateKey(httpMethod, STATUS_URL, query, body) in c
    ensures CreateKey(httpMethod, STATUS_URL, query, body) in WithoutPattern(c, SeatCallPattern(movie, city))
  {
    var k := CreateKey(httpMethod, STATUS_URL, query, body);
    var p := SeatCallPattern(movie, city);
    assert p[13] == '?';
    assert '?' !in k;
    NotContainsWithoutChar(k, p, '?');
  }

  class RequestCacheState {
    var cache: Store

    constructor()
      ensures cache == map[]
    {
      cache := map[];
    }

    /** `getCache`. */
    method GetCache(key: string, now: int) returns (r: Option<string>)
      modifies this
      ensures r == Lookup(old(cache), key, now)
      ensures cache == AfterLookup(old(cache), key, now)
    {
      if key !in cache {
        return None;
      }
      var cached := cache[key];
      if now - cached.timestamp < MAX_AGE {
        return Some(cached.data);
      }
      cache := cache - {key};
      r := None;
    }

    /** `setCache`: store the data stamped with `now`. */
    method SetCache(key: string, data: string, now: int)
      modifies this
      ensures cache == old(cache)[key := Entry(data, now)]
      ensures Lookup(cache, key, now) == Some(data)
    {
      cache := cache[key := Entry(data, now)];
    }

    /** `clearCache`: the loop over the keys deleting every key that
        contains the pattern. */
    method ClearCache(pattern: string)
      modifies this
      ensures cache == WithoutPattern(old(cache), pattern)
    {
      var todo := cache.Keys;
      ghost var c0 := cache;
      while todo != {}
        invariant todo <= c0.Keys
        invariant forall k :: k in cache <==> k in c0 && (k in todo || !Contains(k, pattern))
        invariant forall k :: k in cache ==> cache[k] == c0[k]
        decreases todo
      {
        var key :| key in todo;
        if Contains(key, pattern) {
          cache := cache - {key};
        }
        todo := todo - {key};
      }
      assert cache == WithoutPattern(c0, pattern);
    }

    /** `clearAll`. */
    method ClearAll()
      modifies this
      ensures cache == map[]
    {
      cache := map[];
    }

    /** `seatAPI.invalidateCache`. */
    method InvalidateCache()
      modifies this
      ensures cache == WithoutPattern(old(cache), STATUS_URL)
    {
      ClearCache(STATUS_URL);
    }

    /** The cache step `seatAPI.hold`, `book` and `release` take before
        posting; the request itself is not modelled. */
    method BeforeSeatCall(movie: string, city: string)
      modifies this
      ensures cache == WithoutPattern(old(cache), SeatCallPattern(movie, city))
    {
      ClearCache(SeatCallPattern(movie, city));
    }
  }
}
