/** The framework's local-memory cache as the counters use it: a map from key
    to a stored integer and an absolute expiry time, read against an explicit
    clock in whole seconds. */
module Cache {
  import opened Http

  /** A stored value and the time it expires at; `None` for an entry stored
      with `timeout=None`, which never expires. */
  datatype Entry = Entry(value: int, expiresAt: Option<int>)

  /** An entry is readable while its expiry lies strictly in the future; at
      the expiry instant itself it has expired. */
  predicate Live(e: Entry, now: int)
  {
    e.expiresAt.None? || now < e.expiresAt.value
  }

  /** `cache.get(key, default)`: the stored value of a live entry, otherwise
      the default. */
  function Read(entries: map<string, Entry>, key: string, default: int, now: int): int
  {
    if key in entries && Live(entries[key], now) then entries[key].value else default
  }

  /** The expiry time `cache.set` gives for a timeout in seconds (`None`:
      never). */
  function Expiry(timeout: Option<nat>, now: int): Option<int>
  {
    if timeout.None? then None else Some(now + timeout.value)
  }

  /** A value written with a timeout reads back until the timeout has run
      out and reads as the default from then on; a value written with no
      timeout always reads back; every other key reads as before. */
  lemma ReadOwnWrite(entries: map<string, Entry>, key: string, value: int, timeout: Option<nat>, now: int, later: int, default: int)
    ensures Read(entries[key := Entry(value, Expiry(timeout, now))], key, default, later)
            == (if timeout.None? || later < now + timeout.value then value else default)
    ensures forall k :: k != key ==> Read(entries[key := Entry(value, Expiry(timeout, now))], k, default, later) == Read(entries, k, default, later)
  {
  }

  class LocMemCache {
    var entries: map<string, Entry>

    constructor ()
      ensures entries == map[]
    {
      entries := map[];
    }

    function Get(key: string, default: int, now: int): (v: int)
      reads this
      ensures key in entries && Live(entries[key], now) ==> v == entries[key].value
      ensures key !in entries || !Live(entries[key], now) ==> v == default
    {
      Read(entries, key, default, now)
    }

    /** `cache.set(key, value, timeout)`: overwrites the entry of `key` with a
        fresh expiry and touches no other key. */
    method Set(key: string, value: int, timeout: Option<nat>, now: int)
      modifies this
      ensures entries == old(entries)[key := Entry(value, Expiry(timeout, now))]
    {
      entries := entries[key := Entry(value, Expiry(timeout, now))];
    }
  }
}
