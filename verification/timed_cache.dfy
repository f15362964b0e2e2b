/** The cache with expiry by last update (timed_cache.go). */
module TimedCaches {
  import opened Common

  datatype CacheEntry<+V> = CacheEntry(key: nat, lastUpdatedTime: int, source: V)

  type CacheMap<V> = map<nat, CacheEntry<V>>

  // ----- the hash of a tuple of keys

  /** A hash of bytes that are fed one after the other, as fnv64a is (fnv.go). */
  datatype Fnv = Fnv(offset: nat, add: (nat, char) -> nat)

  function HashAdd(fnv: Fnv, h: nat, text: string): nat
    decreases text
  {
    if text == "" then h else HashAdd(fnv, fnv.add(h, text[0]), text[1..])
  }

  /** What is fed to the hash: every key followed by a separator. */
  function CacheText(keys: seq<string>): string {
    if keys == [] then "" else keys[0] + "|" + CacheText(keys[1..])
  }

  function HashOf(fnv: Fnv, keys: seq<string>): nat { HashAdd(fnv, fnv.offset, CacheText(keys)) }

  lemma {:induction false} HashAddConcat(fnv: Fnv, h: nat, a: string, b: string)
    ensures HashAdd(fnv, h, a + b) == HashAdd(fnv, HashAdd(fnv, h, a), b)
    decreases a
  {
    if a == "" {
      assert a + b == b;
    } else {
      assert (a + b)[1..] == a[1..] + b;
      HashAddConcat(fnv, fnv.add(h, a[0]), a[1..], b);
    }
  }

  /** The hash is fed byte by byte, to the end of the text. */
  lemma {:induction false} HashAddByte(fnv: Fnv, h: nat, text: string, c: char)
    ensures HashAdd(fnv, h, "") == h
    ensures HashAdd(fnv, h, text + [c]) == fnv.add(HashAdd(fnv, h, text), c)
    decreases text
  {
    if text != "" {
      assert (text + [c])[1..] == text[1..] + [c];
      HashAddByte(fnv, fnv.add(h, text[0]), text[1..], c);
    }
  }

  lemma {:induction false} CacheTextAppend(keys: seq<string>, k: string)
    ensures CacheText(keys + [k]) == CacheText(keys) + k + "|"
  {
    if keys != [] {
      assert (keys + [k])[1..] == keys[1..] + [k];
      CacheTextAppend(keys[1..], k);
    }
  }

  method ComputeHash(fnv: Fnv, keys: seq<string>) returns (h: nat)
    ensures h == HashOf(fnv, keys)
  {
    h := fnv.offset;
    for i := 0 to |keys|
      invariant h == HashOf(fnv, keys[..i])
    {
      assert keys[..i+1] == keys[..i] + [keys[i]];
      CacheTextAppend(keys[..i], keys[i]);
      HashAddByte(fnv, fnv.offset, CacheText(keys[..i]) + keys[i], '|');
      HashAddConcat(fnv, fnv.offset, CacheText(keys[..i]), keys[i]);
      h := HashAdd(fnv, h, keys[i]);
      h := fnv.add(h, '|');
    }
    assert keys[..|keys|] == keys;
  }

  /** Tuples without the separator feed the same text only if they are equal. */
  lemma {:induction false} TextsDiffer(a: seq<string>, b: seq<string>)
    requires forall k :: k in a || k in b ==> '|' !in k
    ensures CacheText(a) == CacheText(b) <==> a == b
  {
    if a != [] && b != [] {
      TextsDiffer(a[1..], b[1..]);
      if CacheText(a) == CacheText(b) {
        FirstKey(a[0], CacheText(a[1..]), b[0], CacheText(b[1..]));
        assert a == [a[0]] + a[1..] && b == [b[0]] + b[1..];
      }
    }
  }

  /** What precedes the first separator is determined by the text, and so is what follows. */
  lemma FirstKey(k: string, rest: string, k': string, rest': string)
    requires '|' !in k && '|' !in k' && k + "|" + rest == k' + "|" + rest'
    ensures k == k' && rest == rest'
  {
    var text, text' := k + "|" + rest, k' + "|" + rest';
    assert text[|k|] == '|' && text'[|k'|] == '|';
    assert forall i :: 0 <= i < |k| ==> text[i] == k[i] && text[i] != '|';
    assert forall i :: 0 <= i < |k'| ==> text'[i] == k'[i] && text'[i] != '|';
    assert |k| == |k'|;
    assert k == text[..|k|] && k' == text'[..|k'|];
    assert rest == text[|k|+1..] && rest' == text'[|k'|+1..];
  }

  /** With the separator in a key, different tuples collide under every hash. */
  lemma SeparatorCollides(fnv: Fnv)
    ensures ["a|b", "c"] != ["a", "b|c"] && HashOf(fnv, ["a|b", "c"]) == HashOf(fnv, ["a", "b|c"])
  {
    assert ["a|b", "c"][0] != ["a", "b|c"][0];
    assert CacheText(["a|b", "c"]) == "a|b|c|" == CacheText(["a", "b|c"]);
  }

  // ----- the list and the map

  predicate NotAfter<V>(m: CacheMap<V>, a: nat, b: nat) {
    a in m && b in m && m[a].lastUpdatedTime <= m[b].lastUpdatedTime
  }

  /** The list orders the keys of the map by last update; no update is later than latest. */
  ghost predicate Consistent<V>(order: seq<nat>, m: CacheMap<V>, latest: int) {
    && NoDup(order)
    && (forall k :: k in m <==> k in order)
    && (forall k :: k in m ==> m[k].key == k && m[k].lastUpdatedTime <= latest)
    && SortedBy(order, m)
  }

  function Refreshed<V>(m: CacheMap<V>, k: nat, now: int): CacheMap<V>
    requires k in m
  {
    m[k := m[k].(lastUpdatedTime := now)]
  }

  function Moved(order: seq<nat>, k: nat): seq<nat> { Without(order, k) + [k] }

  lemma AppendNoDup(s: seq<nat>, k: nat)
    requires NoDup(s) && k !in s
    ensures NoDup(s + [k])
  {
  }

  predicate SortedBy<V>(order: seq<nat>, m: CacheMap<V>) {
    forall i, j :: 0 <= i < j < |order| ==> NotAfter(m, order[i], order[j])
  }

  lemma TailSorted<V>(s: seq<nat>, t: seq<nat>, m: CacheMap<V>)
    requires SortedBy(s, m) && s != [] && t == s[1..]
    ensures SortedBy(t, m)
  {
    assert forall i :: 0 <= i < |t| ==> t[i] == s[i+1];
    forall i, j | 0 <= i < j < |t| ensures NotAfter(m, t[i], t[j]) {
      assert NotAfter(m, s[i+1], s[j+1]);
    }
  }

  lemma {:induction false} WithoutSorted<V>(s: seq<nat>, k: nat, m: CacheMap<V>)
    requires SortedBy(s, m)
    ensures SortedBy(Without(s, k), m)
  {
    if s != [] {
      TailSorted(s, s[1..], m);
      WithoutSorted(s[1..], k, m);
      var rest := Without(s[1..], k);
      forall i | 0 <= i < |rest| && s[0] != k ensures NotAfter(m, s[0], rest[i]) {
        assert rest[i] in rest && rest[i] in s[1..];
        var j := IndexOf(s[1..], rest[i]);
        assert NotAfter(m, s[0], s[j+1]) && s[j+1] == rest[i];
      }
    }
  }

  /** Refreshing the entry moved to the back keeps the list sorted. */
  lemma MovedSorted<V>(order: seq<nat>, k: nat, m: CacheMap<V>, m': CacheMap<V>, now: int)
    requires SortedBy(order, m) && NoDup(order)
    requires forall x :: x in order ==> x in m && m[x].lastUpdatedTime <= now
    requires k in m' && m'[k].lastUpdatedTime == now && forall x :: x in m && x != k ==> x in m' && m'[x] == m[x]
    ensures SortedBy(Moved(order, k), m')
  {
    WithoutSorted(order, k, m);
    var rest := Without(order, k);
    forall i | 0 <= i < |rest| ensures rest[i] in m && rest[i] != k && m[rest[i]].lastUpdatedTime <= now {
      assert rest[i] in rest;
    }
  }

  lemma MovedConsistent<V>(order: seq<nat>, k: nat, m: CacheMap<V>, e: CacheEntry<V>, latest: int, now: int)
    requires Consistent(order, m, latest) && latest <= now && e.key == k && e.lastUpdatedTime == now
    ensures Consistent(Moved(order, k), m[k := e], now)
  {
    WithoutNoDup(order, k);
    assert SortedBy(order, m);
    MovedSorted(order, k, m, m[k := e], now);
    var order', m' := Moved(order, k), m[k := e];
    assert SortedBy(order', m');
    AppendNoDup(Without(order, k), k);
    assert forall x :: x in order' <==> x in Without(order, k) || x == k;
  }

  lemma SourceConsistent<V>(order: seq<nat>, m: CacheMap<V>, k: nat, source: V, latest: int)
    requires Consistent(order, m, latest) && k in m
    ensures Consistent(order, m[k := m[k].(source := source)], latest)
  {
    var m' := m[k := m[k].(source := source)];
    forall i, j | 0 <= i < j < |order| ensures NotAfter(m', order[i], order[j]) {
      assert NotAfter(m, order[i], order[j]);
    }
  }

  lemma {:induction false} SizesAgree<V>(order: seq<nat>, m: CacheMap<V>, latest: int)
    requires Consistent(order, m, latest)
    ensures |m| == |order|
  {
    NoDupSize(order);
    assert m.Keys == Elems(order);
  }

  // ----- expiry

  /** The entries last updated after a given time. */
  function Live<V>(m: CacheMap<V>, expireTime: int): CacheMap<V> {
    map k | k in m && m[k].lastUpdatedTime > expireTime :: m[k]
  }

  /** The contents of the entries, and the times of their last updates. */
  function SourcesOf<V>(m: CacheMap<V>): map<nat, V> { map k | k in m :: m[k].source }

  function TimesOf<V>(m: CacheMap<V>): map<nat, int> { map k | k in m :: m[k].lastUpdatedTime }

  /** The keys last updated at a given time or before. */
  function ExpiredKeys(times: map<nat, int>, expireTime: int): set<nat> { set k | k in times && times[k] <= expireTime }

  lemma PutSource<V>(m: CacheMap<V>, k: nat, e: CacheEntry<V>)
    ensures SourcesOf(m[k := e]) == SourcesOf(m)[k := e.source]
    ensures TimesOf(m[k := e]) == TimesOf(m)[k := e.lastUpdatedTime]
  {
  }

  function Sources<V>(keys: seq<nat>, m: CacheMap<V>): seq<V>
    requires forall i :: 0 <= i < |keys| ==> keys[i] in m
  {
    seq(|keys|, i requires 0 <= i < |keys| => m[keys[i]].source)
  }

  /** The expired entries are exactly the first n of the list. */
  predicate ExpiredAre<V>(order: seq<nat>, m: CacheMap<V>, expireTime: int, n: nat) {
    n <= |order| && forall i :: 0 <= i < |order| ==>
      order[i] in m && (i < n <==> m[order[i]].lastUpdatedTime <= expireTime)
  }

  /** Exactly the expired entries are gone, the first n of the list, and their contents are listed in that order. */
  ghost predicate CleanedUp<V>(
    order0: seq<nat>, m0: CacheMap<V>, m: CacheMap<V>, expireTime: int, n: nat, called: seq<V>) {
    ExpiredAre(order0, m0, expireTime, n) && m == Live(m0, expireTime) && called == Sources(order0[..n], m0)
  }

  /** Expiry takes the expired keys away and leaves the contents and times of the others. */
  lemma CleanedSources<V>(
    order0: seq<nat>, m0: CacheMap<V>, m: CacheMap<V>, expireTime: int, n: nat, called: seq<V>)
    requires CleanedUp(order0, m0, m, expireTime, n, called)
    ensures SourcesOf(m) == SourcesOf(m0) - ExpiredKeys(TimesOf(m0), expireTime)
    ensures TimesOf(m) == TimesOf(m0) - ExpiredKeys(TimesOf(m0), expireTime)
  {
  }

  class TimedCache<V(==)> {
    const maxEntries: int
    const fnv: Fnv
    var cacheList: seq<nat>
    var cacheMap: CacheMap<V>
    ghost var latest: int

    ghost predicate Valid()
      reads this
    {
      Consistent(cacheList, cacheMap, latest)
    }

    ghost function Content(h: nat): Option<V>
      reads this
    {
      if h in cacheMap then Some(cacheMap[h].source) else None
    }

    constructor (maxEntries: int, fnv: Fnv, ghost start: int)
      ensures Valid() && this.maxEntries == maxEntries && this.fnv == fnv && cacheMap == map[] && latest == start
    {
      this.maxEntries, this.fnv, cacheList, cacheMap, latest := maxEntries, fnv, [], map[], start;
    }

    method Clear()
      modifies this
      ensures Valid() && cacheMap == map[] && latest == old(latest)
    {
      cacheList, cacheMap := [], map[];
    }

    /** Finds what is on the list, under the hash of the keys. */
    method GetCacheEntry(keys: seq<string>) returns (r: Option<V>)
      requires Valid()
      ensures r.Some? <==> HashOf(fnv, keys) in cacheList
      ensures r.Some? ==> Some(r.value) == Content(HashOf(fnv, keys))
    {
      var h := ComputeHash(fnv, keys);
      r := if h in cacheMap then Some(cacheMap[h].source) else None;
    }

    /** A known entry keeps its content and becomes the most recent; a new one is added unless the cache is full. */
    method UpdateCacheEntry(keys: seq<string>, provided: V, now: int) returns (ok: bool)
      requires Valid() && latest <= now
      modifies this
      ensures Valid() && latest == now
      ensures ok <==> HashOf(fnv, keys) in old(cacheMap) || maxEntries <= 0 || |old(cacheMap)| < maxEntries
      ensures var h := HashOf(fnv, keys);
        cacheMap == if !ok then old(cacheMap)
                    else if h in old(cacheMap) then Refreshed(old(cacheMap), h, now)
                    else old(cacheMap)[h := CacheEntry(h, now, provided)]
    {
      var h := ComputeHash(fnv, keys);
      SizesAgree(cacheList, cacheMap, latest);
      if h in cacheMap {
        MoveToBack(h, now);
      } else if maxEntries > 0 && |cacheList| >= maxEntries {
        latest := now;
        return false;
      } else {
        PushBack(CacheEntry(h, now, provided), now);
      }
      ok := true;
    }

    method MoveToBack(h: nat, now: int)
      requires Valid() && latest <= now && h in cacheMap
      modifies this
      ensures Valid() && latest == now && cacheMap == Refreshed(old(cacheMap), h, now)
    {
      MovedConsistent(cacheList, h, cacheMap, cacheMap[h].(lastUpdatedTime := now), latest, now);
      cacheMap := Refreshed(cacheMap, h, now);
      cacheList := Moved(cacheList, h);
      latest := now;
    }

    method PushBack(e: CacheEntry<V>, now: int)
      requires Valid() && latest <= now && e.key !in cacheMap && e.lastUpdatedTime == now
      modifies this
      ensures Valid() && latest == now && cacheMap == old(cacheMap)[e.key := e]
    {
      MovedConsistent(cacheList, e.key, cacheMap, e, latest, now);
      WithoutAbsent(cacheList, e.key);
      cacheMap := cacheMap[e.key := e];
      cacheList := cacheList + [e.key];
      latest := now;
    }

    /** A change made to the content of an entry through its pointer. */
    method SetSource(h: nat, source: V)
      requires Valid() && h in cacheMap
      modifies this`cacheMap
      ensures Valid() && cacheMap == old(cacheMap)[h := old(cacheMap)[h].(source := source)]
    {
      SourceConsistent(cacheList, cacheMap, h, source, latest);
      cacheMap := cacheMap[h := cacheMap[h].(source := source)];
    }

    /** Removes exactly the entries not updated after now - expiry: the first of the list, one callback for each. */
    method CleanupExpiredEntries(expiry: int, now: int) returns (called: seq<V>, ghost deleted: nat)
      requires Valid()
      modifies this
      ensures Valid() && latest == old(latest)
      ensures CleanedUp(old(cacheList), old(cacheMap), cacheMap, now - expiry, deleted, called)
    {
      ghost var order0, m0 := cacheList, cacheMap;
      called, deleted := PopExpired(now - expiry);
      EvictionEnds(order0, m0, deleted, cacheList, cacheMap, called, now - expiry, latest);
    }

    /** The loop: pops from the front until a recently used entry is reached. */
    method PopExpired(expireTime: int) returns (called: seq<V>, ghost deleted: nat)
      requires Valid()
      modifies this`cacheList, this`cacheMap
      ensures Popped(old(cacheList), old(cacheMap), deleted, cacheList, cacheMap, called, expireTime)
      ensures deleted == |old(cacheList)| || Lives(old(cacheMap), old(cacheList)[deleted], expireTime)
    {
      called, deleted := [], 0;
      ghost var order0, m0 := cacheList, cacheMap;
      PopStart(order0, m0, expireTime);
      while cacheList != []
        invariant Popped(order0, m0, deleted, cacheList, cacheMap, called, expireTime)
        decreases |cacheList|
      {
        FrontPresent(order0, m0, deleted, latest);
        var pCacheInfo := cacheMap[cacheList[0]];
        if pCacheInfo.lastUpdatedTime > expireTime {
          break;
        }
        PopStep(order0, m0, deleted, called, expireTime);
        called := called + [pCacheInfo.source];
        cacheMap := cacheMap - {pCacheInfo.key};
        cacheList := cacheList[1..];
        deleted := deleted + 1;
      }
    }
  }

  function Minus<V>(m: CacheMap<V>, keys: seq<nat>): CacheMap<V> { map k | k in m && k !in keys :: m[k] }

  predicate Lives<V>(m: CacheMap<V>, k: nat, expireTime: int) { k in m && m[k].lastUpdatedTime > expireTime }

  /** Part way through a cleanup: the first n entries of the list are gone, all of them expired. */
  ghost predicate Popped<V>(
    order0: seq<nat>, m0: CacheMap<V>, n: nat, order: seq<nat>, m: CacheMap<V>, called: seq<V>, expireTime: int)
  {
    && n <= |order0| && order == order0[n..] && m == Minus(m0, order0[..n])
    && (forall i :: 0 <= i < n ==> order0[i] in m0 && m0[order0[i]].lastUpdatedTime <= expireTime)
    && called == Sources(order0[..n], m0)
  }

  lemma PopStart<V>(order0: seq<nat>, m0: CacheMap<V>, expireTime: int)
    ensures Popped(order0, m0, 0, order0, m0, [], expireTime)
  {
    assert order0[..0] == [] && Minus(m0, []) == m0;
  }

  lemma FrontPresent<V>(order0: seq<nat>, m0: CacheMap<V>, n: nat, latest: int)
    requires Consistent(order0, m0, latest) && n < |order0|
    ensures var m := Minus(m0, order0[..n]);
      order0[n..][0] == order0[n] && order0[n] in m && m[order0[n]] == m0[order0[n]] && m0[order0[n]].key == order0[n]
  {
    assert forall i :: 0 <= i < n ==> order0[..n][i] != order0[n];
  }

  lemma PopStep<V>(order0: seq<nat>, m0: CacheMap<V>, n: nat, called: seq<V>, expireTime: int)
    requires n < |order0| && order0[n] in m0 && m0[order0[n]].lastUpdatedTime <= expireTime
    requires Popped(order0, m0, n, order0[n..], Minus(m0, order0[..n]), called, expireTime)
    ensures Popped(order0, m0, n + 1, order0[n..][1..], Minus(m0, order0[..n]) - {order0[n]},
                   called + [m0[order0[n]].source], expireTime)
  {
    assert order0[..n+1] == order0[..n] + [order0[n]];
    MinusStep(m0, order0[..n], order0[n]);
  }

  lemma MinusStep<V>(m: CacheMap<V>, keys: seq<nat>, k: nat)
    ensures Minus(m, keys + [k]) == Minus(m, keys) - {k}
  {
  }

  lemma OthersLive<V>(order0: seq<nat>, m0: CacheMap<V>, n: nat, expireTime: int, latest: int)
    requires Consistent(order0, m0, latest) && n <= |order0|
    requires forall i :: 0 <= i < n ==> order0[i] in m0 && m0[order0[i]].lastUpdatedTime <= expireTime
    requires n == |order0| || (order0[n] in m0 && m0[order0[n]].lastUpdatedTime > expireTime)
    ensures ExpiredAre(order0, m0, expireTime, n)
  {
    assert forall i :: 0 <= i < |order0| ==> order0[i] in m0;
    forall i | n <= i < |order0| ensures m0[order0[i]].lastUpdatedTime > expireTime {
      assert i == n || NotAfter(m0, order0[n], order0[i]);
    }
  }

  lemma LiveRemain<V>(order0: seq<nat>, m0: CacheMap<V>, n: nat, expireTime: int, latest: int)
    requires Consistent(order0, m0, latest) && ExpiredAre(order0, m0, expireTime, n)
    ensures Minus(m0, order0[..n]) == Live(m0, expireTime)
  {
    forall k | k in m0 ensures k in order0[..n] <==> m0[k].lastUpdatedTime <= expireTime {
      var i := IndexOf(order0, k);
      if i < n {
        assert order0[..n][i] == k;
      } else {
        assert forall j :: 0 <= j < n ==> order0[..n][j] != order0[i];
      }
    }
  }

  /** Stopping at the first recently used entry misses no expired one, and leaves a consistent cache. */
  lemma EvictionEnds<V>(
    order0: seq<nat>, m0: CacheMap<V>, n: nat, order: seq<nat>, m: CacheMap<V>, called: seq<V>, expireTime: int,
    latest: int)
    requires Consistent(order0, m0, latest) && Popped(order0, m0, n, order, m, called, expireTime)
    requires n == |order0| || Lives(m0, order0[n], expireTime)
    ensures CleanedUp(order0, m0, m, expireTime, n, called) && Consistent(order, m, latest)
  {
    OthersLive(order0, m0, n, expireTime, latest);
    LiveRemain(order0, m0, n, expireTime, latest);
    SuffixConsistent(order0, m0, n, latest);
  }

  lemma SuffixMembers(order: seq<nat>, n: nat)
    requires NoDup(order) && n <= |order|
    ensures NoDup(order[n..])
    ensures forall k :: k in order[n..] <==> k in order && k !in order[..n]
  {
    var suffix, prefix := order[n..], order[..n];
    assert forall i :: 0 <= i < |suffix| ==> suffix[i] == order[n + i];
    assert forall i :: 0 <= i < n ==> prefix[i] == order[i];
    assert order == prefix + suffix;
    forall k | k in suffix ensures k !in prefix {
      var i := IndexOf(suffix, k);
      assert forall j :: 0 <= j < n ==> prefix[j] != order[n + i];
    }
  }

  lemma SuffixSorted<V>(order: seq<nat>, m: CacheMap<V>, m': CacheMap<V>, n: nat)
    requires SortedBy(order, m) && n <= |order|
    requires forall k :: k in order[n..] ==> k in m' && k in m && m'[k] == m[k]
    ensures SortedBy(order[n..], m')
  {
    var suffix := order[n..];
    forall i, j | 0 <= i < j < |suffix| ensures NotAfter(m', suffix[i], suffix[j]) {
      assert suffix[i] in suffix && suffix[j] in suffix && NotAfter(m, order[n + i], order[n + j]);
    }
  }

  lemma SuffixConsistent<V>(order: seq<nat>, m: CacheMap<V>, n: nat, latest: int)
    requires Consistent(order, m, latest) && n <= |order|
    ensures Consistent(order[n..], Minus(m, order[..n]), latest)
  {
    SuffixMembers(order, n);
    SuffixSorted(order, m, Minus(m, order[..n]), n);
  }
}
