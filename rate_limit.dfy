/** The per-address rate limiter: a read-compare-write on a counter in the
    cache. At most `MaxRequests` requests of one address are let through while
    its counter lives; every accepted request re-arms the counter for
    `TimeFrame` seconds, so the window closes `TimeFrame` seconds after the
    LAST accepted request. Rejection is status 429 (section 4 of RFC 6585). */
module RateLimit {
  import opened Http
  import opened Cache

  const MaxRequests: int := 100
  const TimeFrame: nat := 60

  const KeyPrefix: string := "rate_limit_"

  /** The counter key: the prefix followed by REMOTE_ADDR as formatted. */
  function CacheKey(request: Request): (key: string)
    ensures IsRateKey(key)
    ensures key[|KeyPrefix|..] == PyStr(Get(request.meta, "REMOTE_ADDR"))
  {
    KeyPrefix + PyStr(Get(request.meta, "REMOTE_ADDR"))
  }

  predicate IsRateKey(key: string)
  {
    StartsWith(key, KeyPrefix)
  }

  const TooManyRequests: Response := TextResponse("Too many requests", 429, DefaultContentType)

  /** One call's effect on the cache and whether the request is let through. */
  function Admit(entries: map<string, Entry>, key: string, now: int): (r: (map<string, Entry>, bool))
    ensures r.1 <==> Read(entries, key, 0, now) < MaxRequests
    ensures !r.1 ==> r.0 == entries
    ensures r.1 ==> key in r.0 && r.0[key] == Entry(Read(entries, key, 0, now) + 1, Some(now + TimeFrame))
    ensures forall k :: k != key ==> (k in r.0 <==> k in entries)
    ensures forall k :: k != key && k in entries ==> r.0[k] == entries[k]
  {
    var count := Read(entries, key, 0, now);
    if count >= MaxRequests then (entries, false)
    else (entries[key := Entry(count + 1, Some(now + TimeFrame))], true)
  }

  class RateLimitMiddleware {
    const rateLimit: int := MaxRequests
    const timeFrame: nat := TimeFrame
    const cache: LocMemCache

    constructor (cache: LocMemCache)
      ensures this.cache == cache
    {
      this.cache := cache;
    }

    /** One request: reads the counter, rejects at the limit without touching
        the cache, otherwise stores count + 1 with a fresh timeout and only
        then calls the next handler, whose response is returned as it is. */
    method Call(request: Request, now: int, next: Request -> Response) returns (response: Response, forwarded: bool)
      modifies cache
      ensures (cache.entries, forwarded) == Admit(old(cache.entries), CacheKey(request), now)
      ensures response == if forwarded then next(request) else TooManyRequests
    {
      var ip := Get(request.meta, "REMOTE_ADDR");
      var cacheKey := KeyPrefix + PyStr(ip);
      var requestCount := cache.Get(cacheKey, 0, now);
      if requestCount >= rateLimit {
        return TooManyRequests, false;
      }
      cache.Set(cacheKey, requestCount + 1, Some(timeFrame), now);
      response := next(request);
      forwarded := true;
    }
  }

  /** Requests that carry no address all count against one key, the very key
      of the address written "None". */
  lemma MissingAddressesShareKey(r1: Request, r2: Request)
    requires "REMOTE_ADDR" !in r1.meta
    requires r2.meta == r1.meta["REMOTE_ADDR" := "None"]
    ensures CacheKey(r1) == CacheKey(r2) == "rate_limit_None"
  {
  }

  /** Distinct present addresses have distinct counters. */
  lemma AddressesHaveOwnKeys(r1: Request, r2: Request)
    requires "REMOTE_ADDR" in r1.meta && "REMOTE_ADDR" in r2.meta
    requires r1.meta["REMOTE_ADDR"] != r2.meta["REMOTE_ADDR"]
    ensures CacheKey(r1) != CacheKey(r2)
  {
    assert CacheKey(r1)[|KeyPrefix|..] == r1.meta["REMOTE_ADDR"];
    assert CacheKey(r2)[|KeyPrefix|..] == r2.meta["REMOTE_ADDR"];
  }

  /** Every stored rate counter is at most the limit. */
  ghost predicate Bounded(entries: map<string, Entry>)
  {
    forall k :: k in entries && IsRateKey(k) ==> entries[k].value <= MaxRequests
  }

  /** A call never pushes a counter beyond the limit. */
  lemma AdmitKeepsBounded(entries: map<string, Entry>, key: string, now: int)
    requires Bounded(entries)
    ensures Bounded(Admit(entries, key, now).0)
  {
  }

  /** A counter that is absent or has expired never blocks: the request is let
      through and starts a new window at count 1. */
  lemma ExpiredCounterAdmits(entries: map<string, Entry>, key: string, now: int)
    requires key !in entries || !Live(entries[key], now)
    ensures Admit(entries, key, now).1
    ensures Admit(entries, key, now).0[key] == Entry(1, Some(now + TimeFrame))
  {
  }

  /** A rejected request neither counts nor re-arms the timeout. */
  lemma RejectionDoesNotExtend(entries: map<string, Entry>, key: string, now: int)
    requires key in entries && Live(entries[key], now) && entries[key].value >= MaxRequests
    ensures Admit(entries, key, now) == (entries, false)
  {
  }

  /** The calls for one key at the given times, in order: final cache and the
      decision taken for each request. */
  function Replay(entries: map<string, Entry>, key: string, times: seq<int>): (r: (map<string, Entry>, seq<bool>))
    ensures |r.1| == |times|
    decreases |times|
  {
    if times == [] then (entries, [])
    else
      var (e1, ok) := Admit(entries, key, times[0]);
      var (e2, oks) := Replay(e1, key, times[1..]);
      (e2, [ok] + oks)
  }

  function Min(a: int, b: int): int
  {
    if a <= b then a else b
  }

  /** From a live counter at `c` that expires no earlier than `start +
      TimeFrame`, requests all falling in `[start, start + TimeFrame)` are let
      through exactly while the counter is below the limit; the counter ends at
      `min(c + n, MaxRequests)`, and if all were let through it expires
      `TimeFrame` seconds after the last one. */
  lemma {:induction false} BurstFrom(entries: map<string, Entry>, key: string, times: seq<int>, c: int, start: int)
    requires key in entries && entries[key].value == c && 0 <= c <= MaxRequests
    requires entries[key].expiresAt.Some? && entries[key].expiresAt.value >= start + TimeFrame
    requires forall i :: 0 <= i < |times| ==> start <= times[i] < start + TimeFrame
    ensures forall i :: 0 <= i < |times| ==> Replay(entries, key, times).1[i] == (c + i < MaxRequests)
    ensures key in Replay(entries, key, times).0
    ensures Replay(entries, key, times).0[key].value == Min(c + |times|, MaxRequests)
    ensures Replay(entries, key, times).0[key].expiresAt.Some?
    ensures Replay(entries, key, times).0[key].expiresAt.value >= start + TimeFrame
    ensures 0 < |times| && c + |times| <= MaxRequests ==>
      Replay(entries, key, times).0[key].expiresAt == Some(times[|times| - 1] + TimeFrame)
    decreases |times|
  {
    if times != [] {
      var t := times[0];
      assert Live(entries[key], t);
      var (e1, ok) := Admit(entries, key, t);
      var e1c := if c < MaxRequests then c + 1 else c;
      assert e1[key].value == e1c;
      var rest := times[1..];
      forall i | 0 <= i < |rest| ensures start <= rest[i] < start + TimeFrame {
        assert rest[i] == times[i + 1];
      }
      BurstFrom(e1, key, rest, e1c, start);
      var r := Replay(entries, key, times);
      assert r.1 == [ok] + Replay(e1, key, rest).1;
      forall i | 0 <= i < |times| ensures r.1[i] == (c + i < MaxRequests) {
        if i > 0 {
          assert r.1[i] == Replay(e1, key, rest).1[i - 1];
        }
      }
      if 0 < |rest| && c + |times| <= MaxRequests {
        assert rest[|rest| - 1] == times[|times| - 1];
      }
    }
  }

  /** A burst of requests from one address that starts with no live counter
      and stays within `TimeFrame` seconds of its first request: the first
      `MaxRequests` are let through and every later one is rejected. */
  lemma Burst(entries: map<string, Entry>, key: string, times: seq<int>)
    requires |times| > 0
    requires key !in entries || !Live(entries[key], times[0])
    requires forall i :: 0 <= i < |times| ==> times[0] <= times[i] < times[0] + TimeFrame
    ensures forall i :: 0 <= i < |times| ==> Replay(entries, key, times).1[i] == (i < MaxRequests)
  {
    var start := times[0];
    var (e1, ok) := Admit(entries, key, start);
    var rest := times[1..];
    forall i | 0 <= i < |rest| ensures start <= rest[i] < start + TimeFrame {
      assert rest[i] == times[i + 1];
    }
    BurstFrom(e1, key, rest, 1, start);
    var r := Replay(entries, key, times);
    forall i | 0 <= i < |times| ensures r.1[i] == (i < MaxRequests) {
      if i > 0 {
        assert r.1[i] == Replay(e1, key, rest).1[i - 1];
      }
    }
  }

  /** The window is measured from the last accepted request, not the first:
      after a full burst, a request more than `TimeFrame` seconds after the
      burst's first request is still rejected as long as it comes within
      `TimeFrame` seconds of the burst's last accepted request. */
  lemma {:induction false} WindowFollowsLastAccepted(entries: map<string, Entry>, key: string, times: seq<int>, later: int)
    requires |times| == MaxRequests
    requires key !in entries || !Live(entries[key], times[0])
    requires forall i :: 0 <= i < |times| ==> times[0] <= times[i] < times[0] + TimeFrame
    requires later < times[|times| - 1] + TimeFrame
    ensures !Admit(Replay(entries, key, times).0, key, later).1
  {
    var start := times[0];
    var (e1, ok) := Admit(entries, key, start);
    var rest := times[1..];
    forall i | 0 <= i < |rest| ensures start <= rest[i] < start + TimeFrame {
      assert rest[i] == times[i + 1];
    }
    BurstFrom(e1, key, rest, 1, start);
    assert rest[|rest| - 1] == times[|times| - 1];
    var e := Replay(entries, key, times).0;
    assert e == Replay(e1, key, rest).0;
    assert e[key] == Entry(MaxRequests, Some(times[|times| - 1] + TimeFrame));
  }

  /** One hundred requests spread over the first ten seconds (ten per second),
      then a request at second 61: 61 seconds after the first request, but
      within 60 seconds of the last accepted one, so it is rejected. */
  lemma HundredInTenSecondsThenSixtyOne()
    ensures var times := seq(MaxRequests, i => i / 10);
            !Admit(Replay(map[], "rate_limit_1.2.3.4", times).0, "rate_limit_1.2.3.4", 61).1
  {
    var times := seq(MaxRequests, i => i / 10);
    assert times[|times| - 1] == 9;
    WindowFollowsLastAccepted(map[], "rate_limit_1.2.3.4", times, 61);
  }
}
