/**
 * The in-process TTL cache (`services/cache_service.py`): a value table and
 * an expiry-time table keyed by the same strings. Times are integer seconds
 * and the current time is a parameter of every operation that reads the
 * clock.
 *
 * The boundary is not uniform: `get` treats an entry as expired only once
 * `now > expiry`, while `cleanup_expired` and `get_stats` count it as
 * expired already at `now == expiry`.
 */
module CacheService {
  import opened Wrappers

  /** Python's `pattern in key` for strings: `p` occurs in `s` (the empty pattern always does). */
  predicate Contains(s: string, p: string)
    decreases |s|
  {
    (|p| <= |s| && s[..|p|] == p) || (|s| > 0 && Contains(s[1..], p))
  }

  /** The keys whose expiry time has been reached (`t <= now`). */
  function Expired(times: map<string, int>, now: int): (r: set<string>)
    ensures forall k :: k in r <==> k in times && times[k] <= now
  {
    set k | k in times && times[k] <= now
  }

  /** The keys whose expiry time lies ahead (`t > now`). */
  function Active(times: map<string, int>, now: int): (r: set<string>)
    ensures forall k :: k in r <==> k in times && times[k] > now
  {
    set k | k in times && times[k] > now
  }

  /** The keys of `keys` that contain `pattern`. */
  function Matching(keys: set<string>, pattern: string): (r: set<string>)
    ensures forall k :: k in r <==> k in keys && Contains(k, pattern)
  {
    set k | k in keys && Contains(k, pattern)
  }

  /**
   * The key of one call made through `cached`: prefix, function name, then
   * the arguments. `sortedKwargs` is `sorted(kwargs.items())`: the keyword
   * arguments in ascending key order, so two calls that pass the same
   * keywords in different orders share a key.
   */
  function CacheKey(prefix: string, funcName: string, args: seq<string>, sortedKwargs: seq<(string, string)>): (r: string)
    ensures |prefix| + |funcName| + 2 <= |r| && r[..|prefix| + |funcName| + 2] == prefix + ":" + funcName + ":"
  {
    var head := prefix + ":" + funcName + ":";
    assert (head + Join(args) + Join(KeywordStrings(sortedKwargs)))[..|head|] == head;
    head + Join(args) + Join(KeywordStrings(sortedKwargs))
  }

  /** `":".join(parts)`. */
  function Join(parts: seq<string>): string
  {
    if parts == [] then "" else if |parts| == 1 then parts[0] else parts[0] + ":" + Join(parts[1..])
  }

  function KeywordStrings(kwargs: seq<(string, string)>): (r: seq<string>)
    ensures |r| == |kwargs| && forall i :: 0 <= i < |kwargs| ==> r[i] == kwargs[i].0 + "=" + kwargs[i].1
  {
    if kwargs == [] then [] else [kwargs[0].0 + "=" + kwargs[0].1] + KeywordStrings(kwargs[1..])
  }

  /**
   * The positional arguments and the keyword arguments are joined without
   * a separator between the two groups, so different calls can share a key.
   */
  lemma CacheKeysCollide()
    ensures CacheKey("p", "f", ["a=b"], []) == CacheKey("p", "f", [], [("a", "b")])
  {
  }

  /** Cache statistics without the memory estimate. */
  datatype CacheStats = CacheStats(totalEntries: nat, activeEntries: nat, expiredEntries: nat)

  class Cache<V> {
    var values: map<string, V>
    var times: map<string, int>

    /** Both tables hold the same keys. */
    ghost predicate Valid()
      reads this
    {
      values.Keys == times.Keys
    }

    constructor ()
      ensures Valid() && values == map[] && times == map[]
    {
      values := map[];
      times := map[];
    }

    /**
     * `get`: `None` for a missing key; an entry whose expiry lies strictly
     * before `now` is deleted and gives `None`; otherwise its value.
     */
    method Get(key: string, now: int) returns (r: Option<V>)
      requires Valid()
      modifies this
      ensures Valid()
      ensures r.Some? <==> key in old(values) && now <= old(times)[key]
      ensures r.Some? ==> r.value == old(values)[key] && values == old(values) && times == old(times)
      ensures r.None? ==> values == old(values) - {key} && times == old(times) - {key}
    {
      if key !in values || key !in times {
        return None;
      }
      if now > times[key] {
        var _ := Delete(key);
        return None;
      }
      r := Some(values[key]);
    }

    /** `set`: stores the value, expiring `expiresIn` seconds after `now`. */
    method Set(key: string, value: V, expiresIn: int, now: int) returns (ok: bool)
      requires Valid()
      modifies this
      ensures Valid() && ok
      ensures values == old(values)[key := value] && times == old(times)[key := now + expiresIn]
    {
      values := values[key := value];
      times := times[key := now + expiresIn];
      ok := true;
    }

    /** `delete`: removes the key from both tables; a missing key is no error. */
    method Delete(key: string) returns (ok: bool)
      requires Valid()
      modifies this
      ensures Valid() && ok
      ensures values == old(values) - {key} && times == old(times) - {key}
      ensures key !in old(values) ==> values == old(values) && times == old(times)
    {
      if key in values {
        values := values - {key};
      }
      if key in times {
        times := times - {key};
      }
      ok := true;
    }

    /** `clear`: empties both tables. */
    method Clear() returns (ok: bool)
      modifies this
      ensures Valid() && ok && values == map[] && times == map[]
    {
      values := map[];
      times := map[];
      ok := true;
    }

    /** `get_stats`: entries at or past their expiry count as expired. */
    function GetStats(now: int): (s: CacheStats)
      reads this
      ensures s.totalEntries == |values|
      ensures s.activeEntries == |Active(times, now)| && s.expiredEntries == |Expired(times, now)|
    {
      CacheStats(|values|, |Active(times, now)|, |Expired(times, now)|)
    }

    /**
     * `cleanup_expired`: deletes exactly the entries with `expiry <= now` and
     * returns how many there were.
     */
    method CleanupExpired(now: int) returns (n: nat)
      requires Valid()
      modifies this
      ensures Valid()
      ensures n == |Expired(old(times), now)|
      ensures values == old(values) - Expired(old(times), now)
      ensures times == old(times) - Expired(old(times), now)
      ensures Expired(times, now) == {}
    {
      var doomed := Expired(times, now);
      n := |doomed|;
      var left := doomed;
      while left != {}
        invariant Valid() && left <= doomed
        invariant values == old(values) - (doomed - left)
        invariant times == old(times) - (doomed - left)
        decreases |left|
      {
        var k :| k in left;
        var _ := Delete(k);
        left := left - {k};
      }
    }

    /**
     * `invalidate_pattern`: deletes exactly the keys containing `pattern`
     * and returns how many there were.
     */
    method InvalidatePattern(pattern: string) returns (n: nat)
      requires Valid()
      modifies this
      ensures Valid()
      ensures n == |Matching(old(values).Keys, pattern)|
      ensures values == old(values) - Matching(old(values).Keys, pattern)
      ensures times == old(times) - Matching(old(values).Keys, pattern)
      ensures GetKeys(Some(pattern)) == {}
    {
      var doomed := Matching(values.Keys, pattern);
      n := |doomed|;
      var left := doomed;
      while left != {}
        invariant Valid() && left <= doomed
        invariant values == old(values) - (doomed - left)
        invariant times == old(times) - (doomed - left)
        decreases |left|
      {
        var k :| k in left;
        var _ := Delete(k);
        left := left - {k};
      }
    }

    /** `get_keys`: the keys containing `pattern`; all keys when it is absent or empty. */
    function GetKeys(pattern: Option<string>): (r: set<string>)
      reads this
      ensures pattern.None? || pattern.value == "" ==> r == values.Keys
      ensures pattern.Some? ==> r == Matching(values.Keys, pattern.value)
    {
      if pattern.None? || pattern.value == "" then values.Keys else Matching(values.Keys, pattern.value)
    }

    /**
     * A call made through `cached`: a stored value that has not expired is
     * returned without calling the function; otherwise `result` (what the
     * function returns) is stored and returned.
     */
    method Cached(key: string, result: V, expiresIn: int, now: int) returns (r: V, hit: bool)
      requires Valid()
      modifies this
      ensures Valid()
      ensures hit <==> key in old(values) && now <= old(times)[key]
      ensures hit ==> r == old(values)[key] && values == old(values) && times == old(times)
      ensures !hit ==> r == result && values == old(values)[key := result] && times == old(times)[key := now + expiresIn]
    {
      var found := Get(key, now);
      if found.Some? {
        return found.value, true;
      }
      var _ := Set(key, result, expiresIn, now);
      r, hit := result, false;
    }
  }

  /** Every key is either active or expired, never both. */
  lemma ActivePlusExpired(times: map<string, int>, now: int)
    ensures |Active(times, now)| + |Expired(times, now)| == |times.Keys|
  {
    var a, e := Active(times, now), Expired(times, now);
    assert a * e == {};
    assert a + e == times.Keys;
  }

  /** After `cleanup_expired`, the statistics report no expired entry and every key as active. */
  lemma StatsAfterCleanup<V>(c: Cache<V>, now: int)
    requires Expired(c.times, now) == {}
    ensures c.GetStats(now).expiredEntries == 0 && c.GetStats(now).activeEntries == |c.times.Keys|
  {
    ActivePlusExpired(c.times, now);
  }

  /** A value set at `t` for `e` seconds is returned by `get` at any time up to `t + e`. */
  method SetThenGet<V>(c: Cache<V>, key: string, value: V, e: int, t: int, later: int) returns (r: Option<V>)
    requires c.Valid() && later <= t + e
    modifies c
    ensures r == Some(value)
  {
    var _ := c.Set(key, value, e, t);
    r := c.Get(key, later);
  }

  /**
   * At `now == expiry` the entry is still served by `get`, while
   * `get_stats` and `cleanup_expired` already count it as expired.
   */
  method ExpiryBoundary<V>(c: Cache<V>, key: string, value: V, e: int, t: int) returns (r: Option<V>)
    requires c.Valid()
    modifies c
    ensures r == Some(value) && key in Expired(c.times, t + e)
  {
    var _ := c.Set(key, value, e, t);
    r := c.Get(key, t + e);
  }
}
