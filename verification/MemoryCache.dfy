/** The in-memory cache driver. A Get is two locked regions with a clock reading between them. */
module MemoryCache {
  import opened Options
  import opened PasteTable

  datatype Entry<V> = Entry(value: V, expiresAt: Option<int>)

  predicate Stale<V>(e: Entry<V>, now: int) {
    e.expiresAt.Some? && now > e.expiresAt.value
  }

  /** ttl 0 means the default; a negative one never expires. */
  function ExpiryOf(ttl: int, defaultTtl: int, now: int): Option<int> {
    var t := if ttl == 0 then defaultTtl else ttl;
    if t > 0 then Some(now + t) else None
  }

  function Reaped<V>(data: map<PasteId, Entry<V>>, now: int): map<PasteId, Entry<V>> {
    map k | k in data && !Stale(data[k], now) :: data[k]
  }

  class Cache<V> {
    var data: map<PasteId, Entry<V>>
    const defaultTtl: int

    constructor (defaultTtl: int)
      ensures data == map[] && this.defaultTtl == defaultTtl
    {
      data := map[];
      this.defaultTtl := defaultTtl;
    }

    /** The read-locked region of Get. */
    method Lookup(key: PasteId) returns (e: Option<Entry<V>>)
      ensures e == if key in data then Some(data[key]) else None
    {
      e := if key in data then Some(data[key]) else None;
    }

    /** The write-locked region of Get, entered with a stale entry in hand. */
    method Evict(key: PasteId)
      modifies this
      ensures data == old(data) - {key}
    {
      data := data - {key};
    }

    /** Get without interference. */
    method Get(key: PasteId, now: int) returns (v: Option<V>)
      modifies this
      ensures v == if key in old(data) && (old(data)[key].expiresAt.None? || now <= old(data)[key].expiresAt.value)
                   then Some(old(data)[key].value) else None
      ensures data == if key in old(data) && old(data)[key].expiresAt.Some? && old(data)[key].expiresAt.value < now
                      then old(data) - {key} else old(data)
    {
      var e := Lookup(key);
      if e.None? {
        return None;
      }
      if Stale(e.value, now) {
        Evict(key);
        return None;
      }
      v := Some(e.value.value);
    }

    method Set(key: PasteId, value: V, ttl: int, now: int)
      modifies this
      ensures data == old(data)[key := Entry(value, ExpiryOf(ttl, defaultTtl, now))]
      ensures ttl > 0 ==> data[key].expiresAt == Some(now + ttl)
      ensures ttl < 0 ==> data[key].expiresAt == None
      ensures ttl == 0 ==> data[key].expiresAt == if defaultTtl > 0 then Some(now + defaultTtl) else None
    {
      var t := ttl;
      if t == 0 {
        t := defaultTtl;
      }
      var expiresAt := None;
      if t > 0 {
        expiresAt := Some(now + t);
      }
      data := data[key := Entry(value, expiresAt)];
    }

    method Delete(key: PasteId)
      modifies this
      ensures data == old(data) - {key}
    {
      data := data - {key};
    }

    /** One sweep of the reaper. */
    method Reap(now: int)
      modifies this
      ensures data == Reaped(old(data), now)
      ensures forall k :: k in data <==> k in old(data) && (old(data)[k].expiresAt.None? || now <= old(data)[k].expiresAt.value)
      ensures forall k :: k in data ==> data[k] == old(data)[k]
    {
      var all := data;
      var left := data.Keys;
      while left != {}
        invariant left <= all.Keys
        invariant forall k :: k in data <==> k in all && (k in left || !Stale(all[k], now))
        invariant forall k :: k in data ==> data[k] == all[k]
        decreases |left|
      {
        var k :| k in left;
        left := left - {k};
        if Stale(all[k], now) {
          data := data - {k};
        }
      }
      assert data == Reaped(all, now);
    }
  }

  /** What is stored with a positive ttl is there up to the end of it, for Get as for the reaper, and not after. */
  lemma KeptForItsTtl<V>(data: map<PasteId, Entry<V>>, key: PasteId, value: V, ttl: int, defaultTtl: int, now: int, later: int)
    requires ttl > 0
    ensures var stored := data[key := Entry(value, ExpiryOf(ttl, defaultTtl, now))];
            && (key in Reaped(stored, later) <==> later <= now + ttl)
            && (Stale(stored[key], later) <==> now + ttl < later)
  {
  }
}
