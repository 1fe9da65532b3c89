/** The per-path visit counter: each request adds one to the counter of its
    path, kept in the cache without expiry, and then goes on to the next
    handler. */
module VisitorProfile {
  import opened Http
  import opened Cache
  import RateLimit

  const KeyPrefix: string := "visits_"

  function VisitKey(path: string): (key: string)
    ensures StartsWith(key, KeyPrefix) && key[|KeyPrefix|..] == path
  {
    KeyPrefix + path
  }

  /** One visit of `path`: its counter (absent or expired reads as 0) goes up
      by one and is stored without expiry; no other key changes. */
  function Visit(entries: map<string, Entry>, path: string, now: int): (r: map<string, Entry>)
    ensures VisitKey(path) in r
    ensures r[VisitKey(path)] == Entry(Read(entries, VisitKey(path), 0, now) + 1, None)
    ensures Read(r, VisitKey(path), 0, now) == Read(entries, VisitKey(path), 0, now) + 1
    ensures r.Keys == entries.Keys + {VisitKey(path)}
    ensures forall k :: k in entries && k != VisitKey(path) ==> r[k] == entries[k]
  {
    var key := VisitKey(path);
    entries[key := Entry(Read(entries, key, 0, now) + 1, None)]
  }

  class VisitorProfileMiddleware {
    const cache: LocMemCache

    constructor (cache: LocMemCache)
      ensures this.cache == cache
    {
      this.cache := cache;
    }

    /** Counts the visit, then calls the next handler and returns its response. */
    method Call(request: Request, now: int, next: Request -> Response) returns (response: Response)
      modifies cache
      ensures cache.entries == Visit(old(cache.entries), request.path, now)
      ensures response == next(request)
    {
      var cacheKey := KeyPrefix + request.path;
      var visits := cache.Get(cacheKey, 0, now);
      cache.Set(cacheKey, visits + 1, None, now);
      response := next(request);
    }
  }

  /** The visits of one path at the given times, in order. */
  function VisitAll(entries: map<string, Entry>, path: string, times: seq<int>): map<string, Entry>
    decreases |times|
  {
    if times == [] then entries else VisitAll(Visit(entries, path, times[0]), path, times[1..])
  }

  /** n visits add n to a counter that never expires, and leave every other
      key as it was. */
  lemma {:induction false} VisitsAccumulate(entries: map<string, Entry>, path: string, times: seq<int>, c: int)
    requires VisitKey(path) in entries && entries[VisitKey(path)] == Entry(c, None)
    ensures VisitKey(path) in VisitAll(entries, path, times)
    ensures VisitAll(entries, path, times)[VisitKey(path)] == Entry(c + |times|, None)
    ensures forall k :: k in entries && k != VisitKey(path) ==> k in VisitAll(entries, path, times) && VisitAll(entries, path, times)[k] == entries[k]
    decreases |times|
  {
    if times != [] {
      var e1 := Visit(entries, path, times[0]);
      VisitsAccumulate(e1, path, times[1..], c + 1);
    }
  }

  /** Starting from an empty cache, n requests to a path leave its counter at
      n, readable at any later time. */
  lemma VisitsFromEmpty(path: string, times: seq<int>, later: int)
    ensures Read(VisitAll(map[], path, times), VisitKey(path), 0, later) == |times|
  {
    if times != [] {
      var e1 := Visit(map[], path, times[0]);
      VisitsAccumulate(e1, path, times[1..], 1);
    }
  }

  /** Distinct paths have distinct counters. */
  lemma PathsHaveOwnKeys(p1: string, p2: string)
    requires p1 != p2
    ensures VisitKey(p1) != VisitKey(p2)
  {
    assert VisitKey(p1)[|KeyPrefix|..] == p1;
    assert VisitKey(p2)[|KeyPrefix|..] == p2;
  }

  /** The visit counters share the cache with the rate limiter without ever
      landing on one of its keys. */
  lemma VisitKeysAreNotRateKeys(path: string)
    ensures !RateLimit.IsRateKey(VisitKey(path))
  {
    assert VisitKey(path)[0] == 'v';
  }

  /** Counting visits therefore keeps every rate counter within its limit. */
  lemma VisitKeepsRateBound(entries: map<string, Entry>, path: string, now: int)
    requires RateLimit.Bounded(entries)
    ensures RateLimit.Bounded(Visit(entries, path, now))
  {
    VisitKeysAreNotRateKeys(path);
  }
}
