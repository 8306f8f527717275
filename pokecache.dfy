/** The time-to-live cache of internal/pokecache/cache.go.

    A table from string keys (request URLs) to entries, each a byte payload
    stamped with the time it was added.  `Add` overwrites, `Get` looks up
    without looking at age, and one tick of the background reaper is the
    method `Sweep`, which deletes every entry older than the interval.

    The mutex serialises the three operations, so each is one atomic step
    here; the ticker goroutine becomes explicit calls of `Sweep(now)`, and
    the clock becomes an integer `now` (nanoseconds, as Go's time.Duration)
    passed in by the caller. */
module PokeCache {

  type Bytes = seq<bv8>

  /** One cached value and the moment it was stored. */
  datatype Entry = Entry(createdAt: int, val: Bytes)

  /** True when the reaper, running at `now`, deletes an entry with this
      creation time: its age is STRICTLY greater than the interval. */
  predicate Expired(e: Entry, interval: int, now: int)
  {
    now - e.createdAt > interval
  }

  /** The table after `Add(key, val)` at time `now`. */
  function Put(m: map<string, Entry>, key: string, val: Bytes, now: int): (r: map<string, Entry>)
  {
    m[key := Entry(now, val)]
  }

  /** What `Get(key)` returns: the payload and true, or nil and false. */
  function Lookup(m: map<string, Entry>, key: string): (r: (Bytes, bool))
  {
    if key in m then (m[key].val, true) else ([], false)
  }

  /** The table after one reaper tick at `now`. */
  function Swept(m: map<string, Entry>, interval: int, now: int): (r: map<string, Entry>)
  {
    map k | k in m && !Expired(m[k], interval, now) :: m[k]
  }

  /** The table part-way through a tick: the keys still `pending` have not
      been examined yet, so they are kept whatever their age. */
  ghost function SweptExcept(m: map<string, Entry>, pending: set<string>, interval: int, now: int): (r: map<string, Entry>)
  {
    map k | k in m && (k in pending || !Expired(m[k], interval, now)) :: m[k]
  }

  class Cache {
    var entries: map<string, Entry>
    const interval: int

    /** NewCache, without the reaper goroutine.  Go's ticker panics on a
        non-positive interval, so a usable cache has `interval > 0`. */
    constructor (interval: int)
      requires interval > 0
      ensures this.interval == interval
      ensures entries == map[]
    {
      this.interval := interval;
      entries := map[];
    }

    /** Stores `val` under `key` with creation time `now`, replacing any
        previous entry whole. */
    method Add(key: string, val: Bytes, now: int)
      modifies this
      ensures entries == Put(old(entries), key, val, now)
      ensures key in entries && entries[key] == Entry(now, val)
      ensures forall k :: k != key ==> (k in entries <==> k in old(entries))
      ensures forall k :: k != key && k in entries ==> entries[k] == old(entries)[k]
    {
      entries := entries[key := Entry(now, val)];
    }

    /** Plain lookup: the age of the entry plays no part. */
    method Get(key: string) returns (val: Bytes, ok: bool)
      ensures ok <==> key in entries
      ensures ok ==> val == entries[key].val
      ensures !ok ==> val == []
      ensures (val, ok) == Lookup(entries, key)
    {
      if key in entries {
        val, ok := entries[key].val, true;
      } else {
        val, ok := [], false;
      }
    }

    /** One tick of the reaper: visits every key once and deletes the
        entries whose age at `now` exceeds the interval. */
    method Sweep(now: int)
      modifies this
      ensures entries == Swept(old(entries), interval, now)
    {
      ghost var m0 := entries;
      var pending := entries.Keys;
      while pending != {}
        invariant pending <= m0.Keys
        invariant entries == SweptExcept(m0, pending, interval, now)
        decreases |pending|
      {
        var key :| key in pending;
        if now - entries[key].createdAt > interval {
          entries := map k | k in entries && k != key :: entries[k];
        }
        pending := pending - {key};
      }
      assert entries == Swept(m0, interval, now);
    }
  }

  // ---------------------------------------------------------------------
  // Properties of the three operations, stated on the table's value.

  /** Insert-then-read: right after `Add(k, v)`, `Get(k)` finds `v`. */
  lemma LookupAfterPut(m: map<string, Entry>, key: string, val: Bytes, now: int)
    ensures Lookup(Put(m, key, val, now), key) == (val, true)
  {
  }

  /** A key never added misses, with a nil payload. */
  lemma LookupMissing(m: map<string, Entry>, key: string)
    requires key !in m
    ensures Lookup(m, key) == ([], false)
  {
  }

  /** Overwrite: the second `Add` replaces value and timestamp together,
      so the entry's age restarts from the second time. */
  lemma PutReplaces(m: map<string, Entry>, key: string, v1: Bytes, t1: int, v2: Bytes, t2: int)
    ensures Put(Put(m, key, v1, t1), key, v2, t2) == Put(m, key, v2, t2)
    ensures Put(Put(m, key, v1, t1), key, v2, t2)[key] == Entry(t2, v2)
  {
  }

  /** `Add(k, ...)` leaves every other key as it was. */
  lemma PutFrame(m: map<string, Entry>, key: string, val: Bytes, now: int, other: string)
    requires other != key
    ensures Lookup(Put(m, key, val, now), other) == Lookup(m, other)
    ensures other in Put(m, key, val, now) <==> other in m
  {
  }

  /** A sweep removes exactly the over-age entries and leaves the others
      untouched. */
  lemma SweptExactly(m: map<string, Entry>, interval: int, now: int, key: string)
    ensures key in Swept(m, interval, now) <==> key in m && now - m[key].createdAt <= interval
    ensures key in Swept(m, interval, now) ==> Swept(m, interval, now)[key] == m[key]
  {
  }

  /** After a sweep every remaining entry is at most `interval` old, and a
      second sweep at the same time changes nothing. */
  lemma SweptIsFreshAndIdempotent(m: map<string, Entry>, interval: int, now: int)
    ensures forall k :: k in Swept(m, interval, now) ==> now - Swept(m, interval, now)[k].createdAt <= interval
    ensures Swept(Swept(m, interval, now), interval, now) == Swept(m, interval, now)
  {
  }

  /** No premature expiry: a sweep at most `interval` after the entry was
      added keeps it.  The comparison is strict, so an entry exactly
      `interval` old survives. */
  lemma NoPrematureExpiry(m: map<string, Entry>, interval: int, key: string, val: Bytes, t: int, now: int)
    requires now - t <= interval
    ensures Lookup(Swept(Put(m, key, val, t), interval, now), key) == (val, true)
  {
  }

  /** `Get` ignores age: until a sweep runs, an entry of any age is found. */
  lemma LookupIgnoresAge(m: map<string, Entry>, key: string, val: Bytes, t: int, interval: int, now: int)
    requires now - t > interval
    ensures Expired(Put(m, key, val, t)[key], interval, now)
    ensures Lookup(Put(m, key, val, t), key) == (val, true)
  {
  }

  /** The reaper scenario: with a positive interval, an entry added at `t`
      is found at `t`, and is gone after a sweep at `t + 2 * interval`. */
  lemma ExpiresAfterTwoIntervals(m: map<string, Entry>, interval: int, key: string, val: Bytes, t: int)
    requires interval > 0
    ensures Lookup(Put(m, key, val, t), key) == (val, true)
    ensures Lookup(Swept(Put(m, key, val, t), interval, t + 2 * interval), key) == ([], false)
  {
  }

  /** Independent keys: a sweep that expires `a` (added earlier) keeps `b`
      (added within the interval) with its value. */
  lemma IndependentKeys(m: map<string, Entry>, interval: int, a: string, va: Bytes, ta: int,
                        b: string, vb: Bytes, tb: int, now: int)
    requires a != b
    requires now - ta > interval && now - tb <= interval
    ensures Lookup(Swept(Put(Put(m, a, va, ta), b, vb, tb), interval, now), a) == ([], false)
    ensures Lookup(Swept(Put(Put(m, a, va, ta), b, vb, tb), interval, now), b) == (vb, true)
  {
  }

  /** A table of `Add`s and sweeps only ever holds values that were added:
      sweeping never invents or alters an entry. */
  lemma SweptIsSubTable(m: map<string, Entry>, interval: int, now: int)
    ensures Swept(m, interval, now).Keys <= m.Keys
    ensures forall k :: k in Swept(m, interval, now) ==> Swept(m, interval, now)[k] == m[k]
  {
  }
}
