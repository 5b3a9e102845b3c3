/**
  The shared cache: a Redis server, the store in front of it, and the cache
  service.  Every call succeeds; times are in milliseconds.
 */
module RedisCache {
  import opened Options

  const PREFIX := "xconfess:cache:"
  const SCAN_COUNT := 100

  datatype Entry<V> = Entry(value: V, expires: Option<nat>)

  type Data<V> = map<string, Entry<V>>

  predicate StartsWith(s: string, prefix: string) {
    |prefix| <= |s| && s[..|prefix|] == prefix
  }

  /** MATCH takes a glob, so only a prefix without these characters stands for itself. */
  predicate NoGlob(prefix: string) {
    forall c | c in prefix :: c != '*' && c != '?' && c != '[' && c != '\\'
  }

  predicate Live<V>(e: Entry<V>, now: nat) {
    e.expires.Some? ==> now < e.expires.value
  }

  /** What a read of a key gives; an expired entry is as good as none. */
  function Lookup<V>(data: Data<V>, key: string, now: nat): Option<V> {
    if key in data && Live(data[key], now) then Some(data[key].value) else None
  }

  function Without<V>(data: Data<V>, prefix: string): Data<V> {
    map key | key in data && !StartsWith(key, prefix) :: data[key]
  }

  /** `set` with a TTL in milliseconds: none when it is zero or less. */
  function Stored<V>(data: Data<V>, key: string, value: V, ttl: int, now: nat): Data<V> {
    data[key := Entry(value, if ttl > 0 then Some(now + ttl) else None)]
  }

  /** A value is read until its time is over, and for good without a time to live. */
  lemma StoredIsKept<V>(data: Data<V>, key: string, value: V, ttl: int, now: nat, other: string, later: nat)
    ensures var stored := Stored(data, key, value, ttl, now);
            && Lookup(stored, key, later) == (if ttl > 0 && later >= now + ttl then None else Some(value))
            && (other != key ==> Lookup(stored, other, later) == Lookup(data, other, later))
  {
  }

  class Redis<V> {
    var data: Data<V>
    var slots: seq<string>
    var now: nat

    ghost predicate Valid()
      reads this
    {
      forall key | key in data :: key in slots
    }

    constructor ()
      ensures Valid() && data == map[] && now == 0
    {
      data, slots, now := map[], [], 0;
    }

    method Get(key: string) returns (value: Option<V>)
      ensures value == Lookup(data, key, now)
    {
      value := if key in data && Live(data[key], now) then Some(data[key].value) else None;
    }

    method Set(key: string, value: V, px: Option<nat>)
      requires Valid()
      modifies this`data, this`slots
      ensures Valid()
      ensures data == old(data)[key := Entry(value, if px.Some? then Some(now + px.value) else None)]
    {
      data := data[key := Entry(value, if px.Some? then Some(now + px.value) else None)];
      if key !in slots { slots := slots + [key]; }
    }

    method Del(key: string)
      requires Valid()
      modifies this`data
      ensures Valid() && data == old(data) - {key}
    {
      data := data - {key};
    }

    method Elapse(ms: nat)
      requires Valid()
      modifies this`now
      ensures Valid() && now == old(now) + ms
    {
      now := now + ms;
    }

    /** The slot after the last one that a scan from `cursor` looks at. */
    function ScanEnd(cursor: nat): (end: nat)
      requires cursor <= |slots|
      reads this
      ensures cursor <= end <= |slots| && (end == cursor ==> cursor == |slots|)
    {
      if cursor + SCAN_COUNT <= |slots| then cursor + SCAN_COUNT else |slots|
    }

    /**
      `SCAN cursor MATCH prefix* COUNT n`: looks at the next slots, and answers 0
      after the last.  Keys that have expired count as stored until they are removed.
     */
    method Scan(cursor: nat, prefix: string) returns (next: nat, keys: seq<string>)
      requires cursor <= |slots| && NoGlob(prefix)
      ensures next == if ScanEnd(cursor) == |slots| then 0 else ScanEnd(cursor)
      ensures forall key :: key in keys <==> key in slots[cursor..ScanEnd(cursor)] && key in data && StartsWith(key, prefix)
    {
      var end := ScanEnd(cursor);
      next := if end == |slots| then 0 else end;
      keys := [];
      var i := cursor;
      while i < end
        invariant cursor <= i <= end
        invariant forall key :: key in keys <==> key in slots[cursor..i] && key in data && StartsWith(key, prefix)
      {
        assert slots[cursor..i + 1] == slots[cursor..i] + [slots[i]];
        if slots[i] in data && StartsWith(slots[i], prefix) { keys := keys + [slots[i]]; }
        i := i + 1;
      }
    }
  }

  class RedisCacheStore<V> {
    const client: Redis<V>

    constructor (client: Redis<V>)
      ensures this.client == client
    {
      this.client := client;
    }

    method Get(key: string) returns (value: Option<V>)
      ensures value == Lookup(client.data, PREFIX + key, client.now)
    {
      value := client.Get(PREFIX + key);
    }

    method Set(key: string, value: V, ttl: int := 300000)
      requires client.Valid()
      modifies client`data, client`slots
      ensures client.Valid() && client.data == Stored(old(client.data), PREFIX + key, value, ttl, client.now)
    {
      if ttl > 0 {
        client.Set(PREFIX + key, value, Some(ttl));
      } else {
        client.Set(PREFIX + key, value, None);
      }
    }

    method Del(key: string)
      requires client.Valid()
      modifies client`data
      ensures client.Valid() && client.data == old(client.data) - {PREFIX + key}
    {
      client.Del(PREFIX + key);
    }

    /** The scan loop: exactly the keys with the prefix, without the store's own prefix. */
    method Keys(prefix: string) returns (keys: seq<string>)
      requires client.Valid() && NoGlob(prefix)
      ensures forall key :: key in keys <==> PREFIX + key in client.data && StartsWith(key, prefix)
    {
      keys := [];
      var cursor := 0;
      var found := [];
      ghost var seen := 0;
      var more := true;
      while more
        invariant cursor <= |client.slots| && seen <= |client.slots|
        invariant more ==> seen == cursor
        invariant !more ==> seen == |client.slots|
        invariant forall key :: PREFIX + key in client.slots[..seen] && PREFIX + key in client.data && StartsWith(key, prefix)
                    <==> key in keys
        decreases if more then |client.slots| - seen + 1 else 0
      {
        ghost var from, until := seen, client.ScanEnd(cursor);
        cursor, found := client.Scan(cursor, PREFIX + prefix);
        var short := seq(|found|, i requires 0 <= i < |found| => if |found[i]| >= |PREFIX| then found[i][|PREFIX|..] else "");
        ShortKeys(client.data, client.slots[from..until], prefix, found, short);
        keys := keys + short;
        seen := until;
        assert client.slots[..until] == client.slots[..from] + client.slots[from..until];
        more := cursor != 0;
      }
      assert client.slots[..|client.slots|] == client.slots;
    }

    method Clear()
      requires client.Valid()
      modifies client`data
      ensures client.Valid() && client.data == Without(old(client.data), PREFIX)
    {
      var keys := Keys("");
      ghost var before := client.data;
      for i := 0 to |keys|
        invariant client.Valid()
        invariant client.data == before - (set k | k in keys[..i] :: PREFIX + k)
      {
        Del(keys[i]);
        assert keys[..i + 1] == keys[..i] + [keys[i]];
      }
      assert keys[..|keys|] == keys;
      RemovedAll(before, keys, "");
    }
  }

  lemma PrefixSplits(key: string, prefix: string)
    ensures StartsWith(PREFIX + key, PREFIX + prefix) <==> StartsWith(key, prefix)
  {
    assert (PREFIX + key)[|PREFIX|..] == key;
    assert (PREFIX + prefix)[|PREFIX|..] == prefix;
    if StartsWith(PREFIX + key, PREFIX + prefix) {
      assert (PREFIX + key)[..|PREFIX + prefix|][|PREFIX|..] == key[..|prefix|];
    }
    if StartsWith(key, prefix) {
      assert (PREFIX + key)[..|PREFIX + prefix|] == PREFIX + key[..|prefix|];
    }
  }

  /** A full key under a store prefix is the store's own prefix and a short key. */
  lemma Shortens(full: string, prefix: string)
    requires StartsWith(full, PREFIX + prefix)
    ensures |full| >= |PREFIX| && PREFIX + full[|PREFIX|..] == full
  {
    assert full[..|PREFIX|] == full[..|PREFIX + prefix|][..|PREFIX|] == PREFIX;
  }

  lemma ShortKeys<V>(data: Data<V>, slots: seq<string>, prefix: string, found: seq<string>, short: seq<string>)
    requires forall key :: key in found <==> key in slots && key in data && StartsWith(key, PREFIX + prefix)
    requires |short| == |found|
    requires forall i | 0 <= i < |found| :: short[i] == if |found[i]| >= |PREFIX| then found[i][|PREFIX|..] else ""
    ensures forall key :: key in short <==> PREFIX + key in slots && PREFIX + key in data && StartsWith(key, prefix)
  {
    forall key ensures key in short <==> PREFIX + key in slots && PREFIX + key in data && StartsWith(key, prefix) {
      PrefixSplits(key, prefix);
      if key in short {
        var i :| 0 <= i < |short| && short[i] == key;
        assert found[i] in found;
        Shortens(found[i], prefix);
      }
      if PREFIX + key in slots && PREFIX + key in data && StartsWith(key, prefix) {
        assert PREFIX + key in found;
        var i :| 0 <= i < |found| && found[i] == PREFIX + key;
        assert short[i] == (PREFIX + key)[|PREFIX|..] == key;
      }
    }
  }

  lemma RemovedAll<V>(data: Data<V>, keys: seq<string>, prefix: string)
    requires forall key :: key in keys <==> PREFIX + key in data && StartsWith(key, prefix)
    ensures data - (set k | k in keys :: PREFIX + k) == Without(data, PREFIX + prefix)
  {
    var gone := set k | k in keys :: PREFIX + k;
    forall full | full in data ensures full in gone <==> StartsWith(full, PREFIX + prefix) {
      if StartsWith(full, PREFIX + prefix) {
        Shortens(full, prefix);
        PrefixSplits(full[|PREFIX|..], prefix);
        assert full[|PREFIX|..] in keys;
      }
      if full in gone {
        var k :| k in keys && full == PREFIX + k;
        PrefixSplits(k, prefix);
      }
    }
  }

  // ---- The cache service ---------------------------------------------------

  function Join(parts: seq<string>): string {
    if parts == [] then "" else if |parts| == 1 then parts[0] else parts[0] + ":" + Join(parts[1..])
  }

  class CacheService<V> {
    const cacheManager: RedisCacheStore<V>

    constructor (store: RedisCacheStore<V>)
      ensures cacheManager == store
    {
      cacheManager := store;
    }

    method Get(key: string) returns (value: Option<V>)
      ensures value == Lookup(cacheManager.client.data, PREFIX + key, cacheManager.client.now)
    {
      value := cacheManager.Get(key);
    }

    /** The TTL is in seconds here. */
    method Set(key: string, value: V, ttl: nat)
      requires cacheManager.client.Valid()
      modifies cacheManager.client`data, cacheManager.client`slots
      ensures cacheManager.client.Valid()
      ensures cacheManager.client.data
           == Stored(old(cacheManager.client.data), PREFIX + key, value, ttl * 1000, cacheManager.client.now)
    {
      cacheManager.Set(key, value, ttl * 1000);
    }

    method Del(key: string)
      requires cacheManager.client.Valid()
      modifies cacheManager.client`data
      ensures cacheManager.client.Valid() && cacheManager.client.data == old(cacheManager.client.data) - {PREFIX + key}
    {
      cacheManager.Del(key);
    }

    /** Removes exactly the keys with this prefix. */
    method DelPattern(pattern: string)
      requires cacheManager.client.Valid() && NoGlob(pattern)
      modifies cacheManager.client`data
      ensures cacheManager.client.Valid()
      ensures cacheManager.client.data == Without(old(cacheManager.client.data), PREFIX + pattern)
    {
      var keys := cacheManager.Keys(pattern);
      ghost var before := cacheManager.client.data;
      for i := 0 to |keys|
        invariant cacheManager.client.Valid()
        invariant cacheManager.client.data == before - (set k | k in keys[..i] :: PREFIX + k)
      {
        cacheManager.Del(keys[i]);
        assert keys[..i + 1] == keys[..i] + [keys[i]];
      }
      assert keys[..|keys|] == keys;
      RemovedAll(before, keys, pattern);
    }
  }
}
