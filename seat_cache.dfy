/** The server's `seatCache` object: a cache of seat entries keyed by
    `movie_city_showtime_date_seatNumber`, a lock map over the same keys,
    removal of a whole show by key prefix, and the `cancelBooking` socket
    handler's use of it. `Date.now()` is the parameter `now`. */
module ServerSeatCache {
  import opened Wrappers
  import opened Strings

  /** `{ status, user, timestamp }`; a `user` left out is `null`. */
  datatype CacheEntry = CacheEntry(status: string, user: Option<string>, timestamp: int)

  type Cache = map<string, CacheEntry>

  /** `getKey`: the five parts joined with '_'. */
  function GetKey(movie: string, city: string, showtime: string, date: string, seatNumber: int): (k: string)
    ensures IsPrefix(ShowPrefix(movie, city, showtime, date), k)
    ensures k[|ShowPrefix(movie, city, showtime, date)|..] == IntToString(seatNumber)
  {
    var k := Join([movie, city, showtime, date, IntToString(seatNumber)], '_');
    assert k == ShowPrefix(movie, city, showtime, date) + IntToString(seatNumber);
    k
  }

  /** The prefix `invalidateShow` removes: the four show parts, each
      followed by '_'. */
  function ShowPrefix(movie: string, city: string, showtime: string, date: string): string
  {
    movie + "_" + city + "_" + showtime + "_" + date + "_"
  }

  /** `getKey` is not injective: a '_' inside a part moves the boundary
      between parts without changing the key. */
  lemma GetKeyCollides()
    ensures GetKey("a_b", "c", "10:00", "d", 1) == GetKey("a", "b_c", "10:00", "d", 1)
  {
    var s1 := ShowPrefix("a_b", "c", "10:00", "d");
    var s2 := ShowPrefix("a", "b_c", "10:00", "d");
    assert s1 == s2;
  }

  /** The cache after `invalidateShow`'s loop: exactly the keys that do not
      start with `prefix` are left, with their entries. */
  function WithoutPrefix(c: Cache, prefix: string): (r: Cache)
    ensures forall k :: k in r <==> k in c && !IsPrefix(prefix, k)
    ensures forall k :: k in r ==> r[k] == c[k]
  {
    map k | k in c && !IsPrefix(prefix, k) :: c[k]
  }

  /** Invalidating a show removes every seat of that show, and only keys
      of that show's prefix: an entry whose key does not start with it
      survives, and invalidating twice is the same as once. */
  lemma InvalidateShowEffect(c: Cache, movie: string, city: string, showtime: string, date: string)
    ensures forall n: int :: GetKey(movie, city, showtime, date, n) !in
                             WithoutPrefix(c, ShowPrefix(movie, city, showtime, date))
    ensures forall k :: k in c && !IsPrefix(ShowPrefix(movie, city, showtime, date), k) ==>
              k in WithoutPrefix(c, ShowPrefix(movie, city, showtime, date))
    ensures var p := ShowPrefix(movie, city, showtime, date);
            WithoutPrefix(WithoutPrefix(c, p), p) == WithoutPrefix(c, p)
  {
  }

  /** A show whose movie name extends another's with '_' shares no
      prefix with it, yet `invalidateShow` of movie "a" and city "b_c"
      removes the seats of movie "a_b" and city "c". */
  lemma InvalidateShowOverreach(c: Cache, e: CacheEntry)
    ensures var c1 := c[GetKey("a_b", "c", "10:00", "d", 1) := e];
            GetKey("a_b", "c", "10:00", "d", 1) !in WithoutPrefix(c1, ShowPrefix("a", "b_c", "10:00", "d"))
  {
    GetKeyCollides();
  }

  /** The `cancelBooking` socket handler's cache effect: a show is
      invalidated only when movie, city, showtime and date are all
      non-empty. */
  function CancelEffect(c: Cache, movie: string, city: string, showtime: string, date: string): (r: Cache)
    ensures movie == "" || city == "" || showtime == "" || date == "" ==> r == c
    ensures movie != "" && city != "" && showtime != "" && date != "" ==>
              r == WithoutPrefix(c, ShowPrefix(movie, city, showtime, date))
  {
    if movie != "" && city != "" && showtime != "" && date != ""
    then WithoutPrefix(c, ShowPrefix(movie, city, showtime, date))
    else c
  }

  class SeatCache {
    var cache: Cache
    /** The keys of `locks`; every stored value is `true`. */
    var locks: set<string>

    constructor()
      ensures cache == map[] && locks == {}
    {
      cache := map[];
      locks := {};
    }

    /** `get`: the entry stored under the seat's key, if any. */
    function Get(movie: string, city: string, showtime: string, date: string, seatNumber: int): (r: Option<CacheEntry>)
      reads this
      ensures r.Some? <==> GetKey(movie, city, showtime, date, seatNumber) in cache
      ensures r.Some? ==> r.value == cache[GetKey(movie, city, showtime, date, seatNumber)]
    {
      var key := GetKey(movie, city, showtime, date, seatNumber);
      if key in cache then Some(cache[key]) else None
    }

    /** `set`: store `{ status, user, timestamp: now }` and answer true; a
        later `get` of the same seat returns that entry, and no other key
        or lock changes. */
    method Set(movie: string, city: string, showtime: string, date: string, seatNumber: int,
               status: string, user: Option<string>, now: int) returns (ok: bool)
      modifies this
      ensures ok
      ensures cache == old(cache)[GetKey(movie, city, showtime, date, seatNumber) := CacheEntry(status, user, now)]
      ensures Get(movie, city, showtime, date, seatNumber) == Some(CacheEntry(status, user, now))
      ensures forall k :: k != GetKey(movie, city, showtime, date, seatNumber) && k in old(cache) ==>
                k in cache && cache[k] == old(cache)[k]
      ensures locks == old(locks)
    {
      var key := GetKey(movie, city, showtime, date, seatNumber);
      cache := cache[key := CacheEntry(status, user, now)];
      ok := true;
    }

    /** `acquireLock` without waiting: a free key is locked and the answer
        is true; a locked key answers false and nothing changes. */
    method AcquireLock(movie: string, city: string, showtime: string, date: string, seatNumber: int)
      returns (acquired: bool)
      modifies this
      ensures var key := GetKey(movie, city, showtime, date, seatNumber);
              && acquired == (key !in old(locks))
              && locks == old(locks) + {key}
      ensures cache == old(cache)
    {
      var key := GetKey(movie, city, showtime, date, seatNumber);
      if key in locks {
        acquired := false;
      } else {
        locks := locks + {key};
        acquired := true;
      }
    }

    /** `releaseLock`: the key is unlocked whether or not it was locked,
        and the answer is always true. */
    method ReleaseLock(movie: string, city: string, showtime: string, date: string, seatNumber: int)
      returns (ok: bool)
      modifies this
      ensures ok
      ensures locks == old(locks) - {GetKey(movie, city, showtime, date, seatNumber)}
      ensures cache == old(cache)
    {
      var key := GetKey(movie, city, showtime, date, seatNumber);
      locks := locks - {key};
      ok := true;
    }

    /** `invalidateShow`: the loop over the cache's keys deleting every key
        that starts with the show's prefix. */
    method InvalidateShow(movie: string, city: string, showtime: string, date: string)
      modifies this
      ensures cache == WithoutPrefix(old(cache), ShowPrefix(movie, city, showtime, date))
      ensures locks == old(locks)
    {
      var prefix := ShowPrefix(movie, city, showtime, date);
      var todo := cache.Keys;
      ghost var c0 := cache;
      while todo != {}
        invariant todo <= c0.Keys
        invariant forall k :: k in cache <==> k in c0 && (k in todo || !IsPrefix(prefix, k))
        invariant forall k :: k in cache ==> cache[k] == c0[k]
        invariant locks == old(locks)
        decreases todo
      {
        var key :| key in todo;
        if IsPrefix(prefix, key) {
          cache := cache - {key};
        }
        todo := todo - {key};
      }
      assert cache == WithoutPrefix(c0, prefix);
    }

    /** The `cancelBooking` handler: invalidate the show when all four
        fields are given. The room broadcast is not modelled. */
    method OnCancelBooking(movie: string, city: string, showtime: string, date: string)
      modifies this
      ensures cache == CancelEffect(old(cache), movie, city, showtime, date)
      ensures locks == old(locks)
    {
      if movie != "" && city != "" && showtime != "" && date != "" {
        InvalidateShow(movie, city, showtime, date);
      }
    }
  }
}
