/** The route cache: entries expire after a time to live, and the least recently used go first when the
    cache is full. The order of `entries` is the order of use, the next to go in front. */
module TtlCache {
  import opened Prelude

  type Key = string
  type Val = string

  datatype Entry = Entry(key: Key, val: Val, expire: int)

  predicate Has(es: seq<Entry>, key: Key) {
    exists i :: 0 <= i < |es| && es[i].key == key
  }

  function Find(es: seq<Entry>, key: Key): (e: Entry)
    requires Has(es, key)
    ensures e in es && e.key == key
  {
    if es[0].key == key then es[0] else
      assert Has(es[1..], key) by {
        var i :| 0 <= i < |es| && es[i].key == key;
        assert es[1..][i - 1] == es[i];
      }
      Find(es[1..], key)
  }

  function Without(es: seq<Entry>, key: Key): seq<Entry> {
    if es == [] then [] else
      Without(es[..|es| - 1], key) + if es[|es| - 1].key == key then [] else [es[|es| - 1]]
  }

  /** The cache after a lookup, and what the lookup returns. */
  function Looked(es: seq<Entry>, key: Key, now: int): (seq<Entry>, Option<Val>) {
    if !Has(es, key) then (es, None) else
      var e := Find(es, key);
      if now < e.expire then (Without(es, key) + [e], Some(e.val)) else (Without(es, key), None)
  }

  /** Drops from the front down to `max`. */
  function Evicted(es: seq<Entry>, max: nat): seq<Entry> {
    if |es| <= max then es else es[|es| - max..]
  }

  function Stored(es: seq<Entry>, key: Key, val: Val, expire: int, max: nat): seq<Entry> {
    Evicted(Without(es, key) + [Entry(key, val, expire)], max)
  }

  class SimpleTTLCache {
    const ttl: int
    const enabled: bool
    const maxEntries: nat
    var entries: seq<Entry>

    constructor (ttl: int, enabled: bool, maxEntries: int)
      ensures this.ttl == ttl && this.enabled == enabled && entries == []
      ensures this.maxEntries == if maxEntries < 1 then 1 else maxEntries
    {
      this.ttl, this.enabled := ttl, enabled;
      this.maxEntries := if maxEntries < 1 then 1 else maxEntries;
      entries := [];
    }

    method Get(key: Key, now: int) returns (r: Option<Val>)
      modifies this
      ensures enabled ==> (entries, r) == Looked(old(entries), key, now)
      ensures !enabled ==> entries == old(entries) && r == None
    {
      if !enabled || !Has(entries, key) {
        return None;
      }
      var e := Find(entries, key);
      if now < e.expire {
        entries := Without(entries, key) + [e];
        return Some(e.val);
      }
      entries := Without(entries, key);
      r := None;
    }

    method Set(key: Key, val: Val, now: int)
      modifies this
      ensures enabled ==> entries == Stored(old(entries), key, val, now + ttl, maxEntries)
      ensures !enabled ==> entries == old(entries)
    {
      if !enabled {
        return;
      }
      entries := Without(entries, key) + [Entry(key, val, now + ttl)];
      ghost var full := entries;
      while |entries| > maxEntries
        invariant |entries| <= |full| && entries == full[|full| - |entries|..]
        invariant |full| > maxEntries ==> |entries| >= maxEntries
        invariant |full| <= maxEntries ==> entries == full
        decreases |entries|
      {
        entries := entries[1..];
      }
    }

    method Clear()
      modifies this
      ensures entries == []
    {
      entries := [];
    }
  }
}
