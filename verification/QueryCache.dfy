/** The bounded least-recently-used cache with a time to live, and what it does on a query stream. */
module QueryCaches {
  import opened Basics
  import opened Random
  import opened QueryStream

  datatype Entry<V> = Entry(value: V, expiresAt: real)

  function Remove<K(==,!new)>(keys: seq<K>, key: K): (r: seq<K>)
    ensures |r| <= |keys|
  {
    if keys == [] then []
    else if keys[0] == key then Remove(keys[1..], key)
    else [keys[0]] + Remove(keys[1..], key)
  }

  /** The last `n` of `keys`. */
  function Newest<K>(keys: seq<K>, n: nat): seq<K> {
    if |keys| <= n then keys else keys[|keys| - n..]
  }

  lemma {:induction false} RemoveMember<K(!new)>(keys: seq<K>, key: K, k: K)
    ensures k in Remove(keys, key) <==> k in keys && k != key
  {
    if keys != [] {
      RemoveMember(keys[1..], key, k);
      assert k in keys <==> k == keys[0] || k in keys[1..];
    }
  }

  lemma {:induction false} RemoveKeepsDistinct<K(!new)>(keys: seq<K>, key: K)
    requires NoDuplicates(keys)
    ensures NoDuplicates(Remove(keys, key))
  {
    if keys != [] {
      RemoveKeepsDistinct(keys[1..], key);
      RemoveMember(keys[1..], key, keys[0]);
      assert keys[0] !in keys[1..];
    }
  }

  /** Moving a key to the end, or adding it there. */
  function Touch<K(==,!new)>(keys: seq<K>, key: K): (r: seq<K>)
    ensures r != []
  {
    Remove(keys, key) + [key]
  }

  lemma TouchKeepsDistinct<K(!new)>(keys: seq<K>, key: K)
    requires NoDuplicates(keys)
    ensures NoDuplicates(Touch(keys, key))
    ensures forall k :: k in Touch(keys, key) <==> k in keys || k == key
  {
    RemoveKeepsDistinct(keys, key);
    forall k ensures k in Remove(keys, key) <==> k in keys && k != key {
      RemoveMember(keys, key, k);
    }
    assert key !in Remove(keys, key);
  }

  /** The insertion order of a map's keys. */
  ghost predicate Mirrors<K(!new), V>(order: seq<K>, entries: map<K, Entry<V>>) {
    NoDuplicates(order) && forall k :: k in order <==> k in entries
  }

  lemma RemoveMirrors<K(!new), V>(order: seq<K>, entries: map<K, Entry<V>>, key: K)
    requires Mirrors(order, entries)
    ensures Mirrors(Remove(order, key), entries - {key})
    ensures key !in Remove(order, key)
  {
    RemoveKeepsDistinct(order, key);
    RemoveMember(order, key, key);
    forall k ensures k in Remove(order, key) <==> k in entries - {key} {
      RemoveMember(order, key, k);
    }
  }

  lemma DropOldestMirrors<K(!new), V>(order: seq<K>, entries: map<K, Entry<V>>)
    requires Mirrors(order, entries) && order != []
    ensures Mirrors(order[1..], entries - {order[0]})
  {
    forall k ensures k in order[1..] <==> k in entries - {order[0]} {
      assert k in order <==> k == order[0] || k in order[1..];
    }
  }

  lemma AppendMirrors<K(!new), V>(order: seq<K>, entries: map<K, Entry<V>>, key: K, e: Entry<V>)
    requires Mirrors(order, entries) && key !in order
    ensures Mirrors(order + [key], entries[key := e])
  {
  }

  lemma TouchMirrors<K(!new), V>(order: seq<K>, entries: map<K, Entry<V>>, key: K)
    requires Mirrors(order, entries) && key in order
    ensures Mirrors(Touch(order, key), entries) && |Touch(order, key)| <= |order|
  {
    TouchKeepsDistinct(order, key);
    RemoveShrinks(order, key);
  }

  /** The keys without the oldest one if that has expired. */
  function Swept<K(==,!new), V>(order: seq<K>, entries: map<K, Entry<V>>, now: real): (rest: seq<K>)
    ensures |order| - 1 <= |rest| <= |order|
  {
    if order != [] && order[0] in entries && entries[order[0]].expiresAt <= now then order[1..] else order
  }

  /** `small` holds some of the entries of `large`. */
  ghost predicate Within<K(!new), V>(small: map<K, Entry<V>>, large: map<K, Entry<V>>) {
    forall k :: k in small ==> k in large && small[k] == large[k]
  }

  lemma SweptWithout<K(!new), V>(order: seq<K>, entries: map<K, Entry<V>>, key: K, now: real)
    requires key !in order
    ensures Swept(order, entries - {key}, now) == Swept(order, entries, now)
  {
    if order != [] {
      assert order[0] in order;
    }
  }

  lemma WithinChain<K(!new), V>(before: map<K, Entry<V>>, swept: map<K, Entry<V>>, after: map<K, Entry<V>>, key: K,
                                e: Entry<V>)
    requires Within(swept, before - {key}) && Within(after, swept[key := e])
    ensures Within(after - {key}, before)
    ensures key in after ==> after[key] == e
  {
    forall k | k in after - {key} ensures k in before && after[k] == before[k] {
      assert k in swept[key := e];
      assert k in swept;
    }
  }

  /** `entries` together with the order in which their keys were inserted, oldest first: a `Map`. */
  class QueryCache<K(==,!new), V> {
    const maxEntries: nat
    const ttlMs: real
    var order: seq<K>
    var entries: map<K, Entry<V>>
    var hits: nat
    var misses: nat
    var stores: nat
    var evictions: nat
    var expirations: nat

    ghost predicate Valid()
      reads this
    {
      && maxEntries >= 1 && ttlMs > 0.0
      && Mirrors(order, entries) && |order| <= maxEntries
    }

    constructor (maxEntries: nat, ttlMs: real)
      requires maxEntries >= 1 && ttlMs > 0.0
      ensures Valid() && this.maxEntries == maxEntries && this.ttlMs == ttlMs && order == []
      ensures hits == misses == stores == evictions == expirations == 0
    {
      this.maxEntries, this.ttlMs := maxEntries, ttlMs;
      order, entries := [], map[];
      hits, misses, stores, evictions, expirations := 0, 0, 0, 0, 0;
    }

    static method Make(maxEntries: int, ttlMs: real) returns (r: Option<QueryCache<K, V>>)
      ensures r.Some? <==> maxEntries >= 1 && ttlMs > 0.0
      ensures r.Some? ==> fresh(r.value) && r.value.Valid() && r.value.order == []
      ensures r.Some? ==> r.value.maxEntries == maxEntries && r.value.ttlMs == ttlMs
    {
      if maxEntries < 1 || ttlMs <= 0.0 {
        return None;
      }
      var c := new QueryCache(maxEntries, ttlMs);
      r := Some(c);
    }

    method Get(key: K, now: real) returns (r: Option<V>)
      requires Valid()
      modifies this
      ensures Valid() && stores == old(stores) && evictions == old(evictions)
      ensures r.Some? <==> key in old(entries) && old(entries)[key].expiresAt > now
      ensures r.Some? ==> r.value == old(entries)[key].value && entries == old(entries)
      ensures r.Some? ==> order == Touch(old(order), key)
      ensures r.Some? ==> hits == old(hits) + 1 && misses == old(misses) && expirations == old(expirations)
      ensures r.None? ==> order == Remove(old(order), key) && entries == old(entries) - {key}
      ensures r.None? ==> hits == old(hits) && misses == old(misses) + 1
      ensures r.None? ==> expirations == old(expirations) + (if key in old(entries) then 1 else 0)
    {
      if key !in entries {
        RemoveAbsent(order, key);
        misses := misses + 1;
        return None;
      }
      var hit := entries[key];
      if hit.expiresAt <= now {
        RemoveMirrors(order, entries, key);
        entries := entries - {key};
        order := Remove(order, key);
        expirations := expirations + 1;
        misses := misses + 1;
        return None;
      }
      TouchMirrors(order, entries, key);
      order := Touch(order, key);
      hits := hits + 1;
      r := Some(hit.value);
    }

    method Set(key: K, value: V, sweepNow: real, storeNow: real)
      requires Valid()
      modifies this
      ensures Valid() && hits == old(hits) && misses == old(misses) && stores == old(stores) + 1
      ensures order == Newest(Swept(Remove(old(order), key), old(entries), sweepNow) + [key], maxEntries)
      ensures key in entries && entries[key] == Entry(value, storeNow + ttlMs)
      ensures Within(entries - {key}, old(entries))
      ensures var others := Remove(old(order), key);
        expirations == old(expirations) + |others| - |Swept(others, old(entries), sweepNow)|
      ensures evictions == old(evictions) + |Swept(Remove(old(order), key), old(entries), sweepNow)| + 1 - |order|
    {
      ghost var e0 := entries;
      Delete(key);
      SweptWithout(order, e0, key, sweepNow);
      Sweep(sweepNow);
      ghost var e2 := entries;
      Append(key, Entry(value, storeNow + ttlMs));
      Evict();
      WithinChain(e0, e2, entries, key, Entry(value, storeNow + ttlMs));
    }

    method Delete(key: K)
      requires Mirrors(order, entries)
      modifies this`order, this`entries
      ensures Mirrors(order, entries) && key !in order
      ensures order == Remove(old(order), key) && entries == old(entries) - {key}
    {
      RemoveMirrors(order, entries, key);
      order := Remove(order, key);
      entries := entries - {key};
    }

    method Append(key: K, e: Entry<V>)
      requires Mirrors(order, entries) && key !in order
      modifies this`order, this`entries, this`stores
      ensures Mirrors(order, entries) && stores == old(stores) + 1
      ensures order == old(order) + [key] && entries == old(entries)[key := e]
    {
      AppendMirrors(order, entries, key, e);
      order := order + [key];
      entries := entries[key := e];
      stores := stores + 1;
    }

    /** Drop the oldest entry if it has expired. */
    method Sweep(now: real)
      requires Mirrors(order, entries)
      modifies this`order, this`entries, this`expirations
      ensures Mirrors(order, entries) && Within(entries, old(entries))
      ensures order == Swept(old(order), old(entries), now) && forall k :: k in order ==> k in old(order)
      ensures expirations == old(expirations) + |old(order)| - |order|
    {
      if |order| > 0 && entries[order[0]].expiresAt <= now {
        DropOldestMirrors(order, entries);
        entries := entries - {order[0]};
        order := order[1..];
        expirations := expirations + 1;
      }
    }

    /** Drop the oldest entries until the rest fit. */
    method Evict()
      requires maxEntries >= 1 && ttlMs > 0.0 && Mirrors(order, entries)
      modifies this`order, this`entries, this`evictions
      ensures Valid() && order == Newest(old(order), maxEntries)
      ensures old(order) != [] ==> old(order)[|old(order)| - 1] in entries
      ensures Within(entries, old(entries))
      ensures evictions == old(evictions) + |old(order)| - |order|
    {
      while |order| > maxEntries
        invariant Mirrors(order, entries) && |order| <= |old(order)|
        invariant Newest(order, maxEntries) == Newest(old(order), maxEntries)
        invariant Within(entries, old(entries))
        invariant evictions == old(evictions) + |old(order)| - |order|
      {
        DropOldestMirrors(order, entries);
        NewestOfTail(order, maxEntries);
        entries := entries - {order[0]};
        order := order[1..];
        evictions := evictions + 1;
      }
      if old(order) != [] {
        LastIsNewest(old(order), maxEntries);
      }
    }
  }

  lemma {:induction false} RemoveAbsent<K(!new)>(keys: seq<K>, key: K)
    requires key !in keys
    ensures Remove(keys, key) == keys
  {
    if keys != [] {
      RemoveAbsent(keys[1..], key);
    }
  }

  lemma {:induction false} RemoveShrinks<K(!new)>(keys: seq<K>, key: K)
    requires key in keys
    ensures |Remove(keys, key)| < |keys|
  {
    if keys[0] != key {
      RemoveShrinks(keys[1..], key);
    }
  }

  lemma Associate<K(!new)>(a: seq<K>, b: seq<K>, c: seq<K>)
    ensures (a + b) + c == a + (b + c)
  {
  }

  lemma {:induction false} RemoveConcat<K(!new)>(a: seq<K>, b: seq<K>, key: K)
    ensures Remove(a + b, key) == Remove(a, key) + Remove(b, key)
  {
    if a == [] {
      assert a + b == b;
    } else {
      RemoveConcat(a[1..], b, key);
      var c := a + b;
      assert c[0] == a[0] && c[1..] == a[1..] + b;
      Associate([a[0]], Remove(a[1..], key), Remove(b, key));
    }
  }

  // ---- least recently used ----

  /** The different keys of a history, in the order of their last use. */
  function Recency<K(==,!new)>(history: seq<K>): seq<K> {
    if history == [] then [] else Touch(Recency(history[..|history| - 1]), history[|history| - 1])
  }

  lemma {:induction false} RecencyDistinct<K(!new)>(history: seq<K>)
    ensures NoDuplicates(Recency(history))
    ensures forall k :: k in Recency(history) <==> k in history
  {
    if history != [] {
      var init, last := history[..|history| - 1], history[|history| - 1];
      RecencyDistinct(init);
      TouchKeepsDistinct(Recency(init), last);
      assert history == init + [last];
    }
  }

  lemma {:induction false} RemoveLength<K(!new)>(keys: seq<K>, key: K)
    requires NoDuplicates(keys) && key in keys
    ensures |Remove(keys, key)| == |keys| - 1
  {
    if keys[0] != key {
      assert key in keys[1..];
      RemoveLength(keys[1..], key);
    } else {
      RemoveAbsent(keys[1..], key);
    }
  }

  lemma DisjointParts<K(!new)>(older: seq<K>, recent: seq<K>, key: K)
    requires NoDuplicates(older + recent) && key in recent
    ensures key !in older && NoDuplicates(recent)
  {
    var keys := older + recent;
    forall i, j | 0 <= i < j < |recent| ensures recent[i] != recent[j] {
      assert keys[|older| + i] != keys[|older| + j];
    }
    var j :| 0 <= j < |recent| && recent[j] == key;
    forall i | 0 <= i < |older| ensures older[i] != key {
      assert keys[i] != keys[|older| + j];
    }
  }

  /** Using a key that is among the newest `n` keeps the rest of them. */
  lemma UseRecent<K(!new)>(keys: seq<K>, key: K, n: nat)
    requires NoDuplicates(keys) && key in Newest(keys, n)
    ensures Newest(Touch(keys, key), n) == Touch(Newest(keys, n), key)
  {
    if |keys| <= n {
      RemoveLength(keys, key);
    } else {
      var older, recent := keys[..|keys| - n], keys[|keys| - n..];
      assert older + recent == keys;
      UseInSuffix(older, recent, key);
    }
  }

  lemma UseInSuffix<K(!new)>(older: seq<K>, recent: seq<K>, key: K)
    requires NoDuplicates(older + recent) && key in recent
    ensures Newest(Touch(older + recent, key), |recent|) == Touch(recent, key)
  {
    DisjointParts(older, recent, key);
    RemoveConcat(older, recent, key);
    RemoveAbsent(older, key);
    RemoveLength(recent, key);
    assert Touch(older + recent, key) == older + Touch(recent, key);
    NewestInSuffix(older, Touch(recent, key), |recent|);
  }

  /** Adding a key that is not among the newest `n` drops the oldest of them if there is no room. */
  lemma UseOther<K(!new)>(keys: seq<K>, key: K, n: nat)
    requires n > 0 && key !in Newest(keys, n)
    ensures Newest(Touch(keys, key), n) == Newest(Newest(keys, n) + [key], n)
  {
    if |keys| <= n {
      RemoveAbsent(keys, key);
    } else {
      var older, recent := keys[..|keys| - n], keys[|keys| - n..];
      assert older + recent == keys;
      OtherInSuffix(older, recent, key);
    }
  }

  lemma OtherInSuffix<K(!new)>(older: seq<K>, recent: seq<K>, key: K)
    requires key !in recent
    ensures Newest(Touch(older + recent, key), |recent|) == Newest(recent + [key], |recent|)
  {
    RemoveConcat(older, recent, key);
    RemoveAbsent(recent, key);
    assert Touch(older + recent, key) == Remove(older, key) + (recent + [key]);
    NewestInSuffix(Remove(older, key), recent + [key], |recent|);
  }

  lemma NewestInSuffix<K(!new)>(a: seq<K>, b: seq<K>, n: nat)
    requires |b| >= n
    ensures Newest(a + b, n) == Newest(b, n)
  {
    assert (a + b)[|a + b| - n..] == b[|b| - n..];
  }

  /** A key used within the last `n` calls is among the `n` most recently used. */
  lemma {:induction false} RecentlyUsed<K(!new)>(history: seq<K>, at: nat, n: nat)
    requires at < |history| <= at + n
    ensures history[at] in Newest(Recency(history), n)
    decreases |history|
  {
    var init, last := history[..|history| - 1], history[|history| - 1];
    if at < |init| && history[at] != last {
      RecentlyUsed(init, at, n - 1);
      NewestAfterUse(Recency(init), last, history[at], n - 1);
    } else {
      LastIsNewest(Recency(history), n);
    }
  }

  lemma LastIsNewest<K(!new)>(keys: seq<K>, n: nat)
    requires n > 0 && keys != []
    ensures keys[|keys| - 1] in Newest(keys, n)
  {
    var recent := Newest(keys, n);
    assert recent[|recent| - 1] == keys[|keys| - 1];
  }

  lemma NewestOfTail<K(!new)>(keys: seq<K>, n: nat)
    requires |keys| > n
    ensures Newest(keys[1..], n) == Newest(keys, n)
  {
  }

  lemma NewestAfterUse<K(!new)>(keys: seq<K>, used: K, key: K, n: nat)
    requires key in Newest(keys, n) && key != used
    ensures key in Newest(Touch(keys, used), n + 1)
  {
    var recent := Newest(keys, n);
    var older := keys[..|keys| - |recent|];
    assert keys == older + recent;
    RemoveConcat(older, recent, used);
    RemoveMember(recent, used, key);
    SuffixIsNewest(Remove(older, used), Touch(recent, used), key, n + 1);
    assert Touch(keys, used) == Remove(older, used) + Touch(recent, used);
  }

  lemma SuffixIsNewest<K(!new)>(older: seq<K>, recent: seq<K>, key: K, n: nat)
    requires key in recent && |recent| <= n
    ensures key in Newest(older + recent, n)
  {
    var all := older + recent;
    var j :| 0 <= j < |recent| && recent[j] == key;
    var newest := Newest(all, n);
    assert newest[|newest| - |recent| + j] == all[|older| + j];
  }

  // ---- a run of calls through the cache ----

  /** The clock reading `t` falls within one time to live of `start`. */
  predicate InWindow(t: real, start: real, ttlMs: real) { start <= t < start + ttlMs }

  ghost predicate NothingExpires(clock: nat -> real, start: real, ttlMs: real) {
    forall i: nat :: InWindow(clock(i), start, ttlMs)
  }

  /** Every entry holds the answer to its key and lives until `deadline`. */
  ghost predicate Sound<K(!new), V(!new)>(entries: map<K, Entry<V>>, answer: K -> V, deadline: real) {
    forall k :: k in entries ==> entries[k].value == answer(k) && entries[k].expiresAt >= deadline
  }

  lemma SoundAfterSet<K(!new), V(!new)>(before: map<K, Entry<V>>, after: map<K, Entry<V>>, key: K,
                                        answer: K -> V, deadline: real)
    requires Sound(before, answer, deadline) && Within(after - {key}, before)
    requires key in after && after[key].value == answer(key) && after[key].expiresAt >= deadline
    ensures Sound(after, answer, deadline)
  {
    forall k | k in after ensures after[k].value == answer(k) && after[k].expiresAt >= deadline {
      if k != key {
        assert k in after - {key};
      }
    }
  }

  function Hits(outcomes: seq<bool>): (n: nat)
    ensures n <= |outcomes|
  {
    if outcomes == [] then 0 else Hits(outcomes[..|outcomes| - 1]) + (if outcomes[|outcomes| - 1] then 1 else 0)
  }

  /** A key is served from a cache of `n` entries when it is among the `n` most recently used. */
  ghost predicate Served<K(!new)>(keys: seq<K>, p: nat, n: nat)
    requires p < |keys|
  {
    keys[p] in Newest(Recency(keys[..p]), n)
  }

  lemma StepServed<K(!new)>(keys: seq<K>, p: nat, n: nat)
    requires p < |keys| && n > 0
    ensures Recency(keys[..p + 1]) == Touch(Recency(keys[..p]), keys[p])
    ensures Served(keys, p, n) ==>
      Newest(Recency(keys[..p + 1]), n) == Touch(Newest(Recency(keys[..p]), n), keys[p])
    ensures !Served(keys, p, n) ==>
      Newest(Recency(keys[..p + 1]), n) == Newest(Newest(Recency(keys[..p]), n) + [keys[p]], n)
  {
    assert keys[..p + 1][..p] == keys[..p];
    RecencyDistinct(keys[..p]);
    if Served(keys, p, n) {
      UseRecent(Recency(keys[..p]), keys[p], n);
    } else {
      UseOther(Recency(keys[..p]), keys[p], n);
    }
  }

  lemma NothingSwept<K(!new), V(!new)>(order: seq<K>, entries: map<K, Entry<V>>, answer: K -> V, deadline: real,
                                       now: real)
    requires Sound(entries, answer, deadline) && now < deadline
    ensures Swept(order, entries, now) == order
  {
  }

  /** One search: the cached answer, or the answer computed and stored. */
  method Ask<K(==,!new), V(!new)>(cache: QueryCache<K, V>, key: K, answer: K -> V,
                                  t0: real, t1: real, t2: real, ghost start: real)
    returns (hit: bool, value: V)
    requires cache.Valid() && Sound(cache.entries, answer, start + cache.ttlMs)
    requires InWindow(t0, start, cache.ttlMs) && InWindow(t1, start, cache.ttlMs) && InWindow(t2, start, cache.ttlMs)
    modifies cache
    ensures cache.Valid() && Sound(cache.entries, answer, start + cache.ttlMs) && value == answer(key)
    ensures hit <==> key in old(cache.order)
    ensures hit ==> cache.order == Touch(old(cache.order), key)
    ensures !hit ==> cache.order == Newest(old(cache.order) + [key], cache.maxEntries)
    ensures cache.hits == old(cache.hits) + (if hit then 1 else 0)
    ensures cache.misses == old(cache.misses) + (if hit then 0 else 1)
  {
    if key !in cache.order {
      RemoveAbsent(cache.order, key);
    }
    var found := cache.Get(key, t0);
    hit := found.Some?;
    if found.Some? {
      value := found.value;
    } else {
      value := answer(key);
      assert cache.order == old(cache.order);
      ghost var entries := cache.entries;
      NothingSwept(cache.order, entries, answer, start + cache.ttlMs, t1);
      cache.Set(key, value, t1, t2);
      SoundAfterSet(entries, cache.entries, key, answer, start + cache.ttlMs);
    }
  }

  /** What the first `p` calls have shown. */
  ghost predicate Replayed<K(!new), V(!new)>(keys: seq<K>, answer: K -> V, n: nat, p: nat, outcomes: seq<bool>,
                                             values: seq<V>)
    requires p <= |keys|
  {
    && |outcomes| == |values| == p
    && (forall i :: 0 <= i < p ==> (outcomes[i] <==> Served(keys, i, n)))
    && forall i :: 0 <= i < p ==> values[i] == answer(keys[i])
  }

  lemma ReplayedMore<K(!new), V(!new)>(keys: seq<K>, answer: K -> V, n: nat, p: nat, outcomes: seq<bool>,
                                       values: seq<V>, hit: bool)
    requires p < |keys| && Replayed(keys, answer, n, p, outcomes, values) && (hit <==> Served(keys, p, n))
    ensures Replayed(keys, answer, n, p + 1, outcomes + [hit], values + [answer(keys[p])])
  {
    var more := outcomes + [hit];
    forall i | 0 <= i < p + 1 ensures more[i] <==> Served(keys, i, n) {
      assert i < p ==> more[i] == outcomes[i];
    }
  }

  lemma OneMoreOutcome(outcomes: seq<bool>, hit: bool)
    ensures Hits(outcomes + [hit]) == Hits(outcomes) + (if hit then 1 else 0)
  {
    assert (outcomes + [hit])[..|outcomes|] == outcomes;
  }

  /** For any calls: as long as nothing expires, a cache of `maxEntries` serves exactly the keys among
      the `maxEntries` most recently used, and every answer is the one that computing would give. */
  method Replay<K(==,!new), V(!new)>(cache: QueryCache<K, V>, keys: seq<K>, answer: K -> V, clock: nat -> real,
                                     ghost start: real)
    returns (outcomes: seq<bool>, values: seq<V>)
    requires cache.Valid() && cache.order == [] && NothingExpires(clock, start, cache.ttlMs)
    modifies cache
    ensures Replayed(keys, answer, cache.maxEntries, |keys|, outcomes, values)
    ensures cache.hits == old(cache.hits) + Hits(outcomes)
    ensures cache.misses == old(cache.misses) + |keys| - Hits(outcomes)
  {
    outcomes, values := [], [];
    for p := 0 to |keys|
      invariant cache.Valid() && Sound(cache.entries, answer, start + cache.ttlMs)
      invariant cache.order == Newest(Recency(keys[..p]), cache.maxEntries)
      invariant Replayed(keys, answer, cache.maxEntries, p, outcomes, values)
      invariant cache.hits == old(cache.hits) + Hits(outcomes)
      invariant cache.misses == old(cache.misses) + p - Hits(outcomes)
    {
      StepServed(keys, p, cache.maxEntries);
      var t0, t1, t2 := clock(3 * p), clock(3 * p + 1), clock(3 * p + 2);
      var hit, value := Ask(cache, keys[p], answer, t0, t1, t2, start);
      OneMoreOutcome(outcomes, hit);
      ReplayedMore(keys, answer, cache.maxEntries, p, outcomes, values, hit);
      outcomes, values := outcomes + [hit], values + [value];
    }
  }

  // ---- the harness stream ----

  function Queries(calls: seq<Call>): (qs: seq<int>)
    ensures |qs| == |calls| && forall p :: 0 <= p < |qs| ==> qs[p] == calls[p].query
  {
    seq(|calls|, p requires 0 <= p < |calls| => calls[p].query)
  }

  /** On a built stream a large enough cache hits on the repeats and on nothing else. */
  lemma HitsAreRepeats(calls: seq<Call>, p: nat, n: nat)
    requires p < |calls| && n >= MAX_REPEAT_GAP
    requires RepeatsLookBack(calls) && NoDuplicates(FirstSightings(calls))
    ensures Served(Queries(calls), p, n) <==> calls[p].repeat
  {
    var history := Queries(calls)[..p];
    if calls[p].repeat {
      assert LooksBack(calls, p);
      var before :| 0 <= before < p <= before + MAX_REPEAT_GAP && calls[before].query == calls[p].query;
      RecentlyUsed(history, before, n);
    } else {
      RecencyDistinct(history);
      forall i | 0 <= i < p ensures history[i] != calls[p].query {
        FirstSightingIsNew(calls, p, i);
      }
      assert calls[p].query !in history;
    }
  }

  lemma {:induction false} SightingsAndRepeats(calls: seq<Call>, outcomes: seq<bool>)
    requires |outcomes| == |calls| && forall p :: 0 <= p < |calls| ==> (outcomes[p] <==> calls[p].repeat)
    ensures |FirstSightings(calls)| + Hits(outcomes) == |calls|
  {
    if calls != [] {
      SightingsAndRepeats(calls[..|calls| - 1], outcomes[..|calls| - 1]);
    }
  }

  /** Built stream through an empty cache that holds at least `MAX_REPEAT_GAP` entries, nothing expiring:
      each repeat hits, each first sighting misses, so the counts are those the rate asks for. */
  method ReplayStream<V(!new)>(cache: QueryCache<int, V>, calls: seq<Call>, answer: int -> V, clock: nat -> real,
                               ghost start: real, ghost distinct: nat, ghost rate: real, ghost rand: Stream)
    returns (outcomes: seq<bool>, values: seq<V>)
    requires distinct > 0 && 0.0 <= rate < 1.0 && IsStream(calls, distinct, rate, rand)
    requires cache.Valid() && cache.order == [] && cache.hits == cache.misses == 0
    requires cache.maxEntries >= MAX_REPEAT_GAP && NothingExpires(clock, start, cache.ttlMs)
    modifies cache
    ensures |outcomes| == |calls| && forall p :: 0 <= p < |calls| ==> (outcomes[p] <==> calls[p].repeat)
    ensures cache.hits == Repeats(distinct, rate) && cache.misses == distinct
  {
    outcomes, values := Replay(cache, Queries(calls), answer, clock, start);
    SightingsAreAnOrder(calls, distinct, rate, rand);
    forall p | 0 <= p < |calls| ensures outcomes[p] <==> calls[p].repeat {
      HitsAreRepeats(calls, p, cache.maxEntries);
      assert outcomes[p] <==> Served(Queries(calls), p, cache.maxEntries);
    }
    SightingsAndRepeats(calls, outcomes);
  }
}
