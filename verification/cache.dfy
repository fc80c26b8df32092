/** The response caches (cache.py): the in-memory TTL dictionary and the
    SQLite-backed table that replaced it, with the clock as an explicit `now`
    (seconds) and a stored value as `Option<V>` (`None` is Python's `None`).
    Cache keys are the canonical JSON text of the call's arguments. */
module Cache {
  import opened Common
  import opened Sorting

  /** A stored value and its time stamp: the time it was stored (memory) or
      the time it expires (SQLite). */
  datatype Entry<V> = Entry(data: Option<V>, stamp: real)

  // ---------------------------------------------------------------------------
  // MemoryCache
  // ---------------------------------------------------------------------------

  datatype MemoryCache<V> = MemoryCache(store: map<string, Entry<V>>, ttl: real)

  /** An entry stored at `stamp` is younger than the ttl, strictly. */
  predicate MemFresh<V>(c: MemoryCache<V>, key: string, now: real) {
    key in c.store && now - c.store[key].stamp < c.ttl
  }

  /** `MemoryCache.get`: the stored value while it is fresh; a stale entry is
      deleted. The returned cache comes first. */
  function MemGet<V>(c: MemoryCache<V>, key: string, now: real): (r: (MemoryCache<V>, Option<V>))
    ensures r.0.ttl == c.ttl
    ensures MemFresh(c, key, now) ==> r.0 == c && r.1 == c.store[key].data
    ensures !MemFresh(c, key, now) ==> r.0.store == c.store - {key} && r.1 == None
  {
    if key in c.store then
      if now - c.store[key].stamp < c.ttl then (c, c.store[key].data)
      else (c.(store := c.store - {key}), None)
    else (c, None)
  }

  /** `MemoryCache.set`: overwrite, stamped with the current time. */
  function MemSet<V>(c: MemoryCache<V>, key: string, data: Option<V>, now: real): (r: MemoryCache<V>)
    ensures r.ttl == c.ttl && key in r.store && r.store[key] == Entry(data, now)
    ensures forall k | k in c.store && k != key :: k in r.store && r.store[k] == c.store[k]
    ensures r.store.Keys == c.store.Keys + {key}
  {
    c.(store := c.store[key := Entry(data, now)])
  }

  /** `MemoryCache.clear`. */
  function MemClear<V>(c: MemoryCache<V>): (r: MemoryCache<V>)
    ensures r.ttl == c.ttl && |r.store| == 0
  {
    c.(store := map[])
  }

  /** A value set at `t` is returned by a read at `now` exactly while
      `now - t < ttl`; a later read of a key never set, or cleared, misses;
      other keys are unaffected by a set. */
  lemma MemSetGet<V>(c: MemoryCache<V>, key: string, data: Option<V>, t: real, now: real, other: string)
    ensures MemGet(MemSet(c, key, data, t), key, now).1 == if now - t < c.ttl then data else None
    ensures now - t >= c.ttl ==> key !in MemGet(MemSet(c, key, data, t), key, now).0.store
    ensures other != key ==> MemGet(MemSet(c, key, data, t), other, now).1 == MemGet(c, other, now).1
    ensures MemGet(MemClear(c), key, now).1 == None
  {
  }

  /** `MemoryCache.get_or_fetch`, with `fetched` standing for what `fetch_fn()`
      would return: (cache, value, whether `fetch_fn` was called). */
  function MemGetOrFetch<V>(c: MemoryCache<V>, key: string, now: real, fetched: Option<V>): (r: (MemoryCache<V>, Option<V>, bool))
    ensures !r.2 <==> MemFresh(c, key, now) && c.store[key].data.Some?
    ensures !r.2 ==> r.0 == c && r.1 == c.store[key].data
    ensures r.2 ==> r.1 == fetched && r.0 == MemSet(MemGet(c, key, now).0, key, fetched, now)
  {
    var (c', cached) := MemGet(c, key, now);
    if cached.Some? then (c', cached, false)
    else (MemSet(c', key, fetched, now), fetched, true)
  }

  /** A fetched `None` is stored but never served: the next lookup of the key,
      at any time, fetches again. */
  lemma MemNoneNeverServed<V>(c: MemoryCache<V>, key: string, now: real, now': real, f': Option<V>)
    ensures var r := MemGetOrFetch(c, key, now, None);
      r.2 ==> key in r.0.store && r.0.store[key].data == None && MemGetOrFetch(r.0, key, now', f').2
  {
  }

  // ---------------------------------------------------------------------------
  // SQLiteCache
  // ---------------------------------------------------------------------------

  /** The `api_cache` table: key → (data, expires_at). Values go through
      JSON: `json` is what `json.loads(json.dumps(v, default=str))` gives
      back for `v` — `v` itself for JSON data, but int dict keys come back as
      strings, tuples as lists and other objects as their `str()`. A row
      holds its value as it will be read back. */
  datatype SqlCache<!V> = SqlCache(rows: map<string, Entry<V>>, ttl: real, json: V -> V)

  /** The value a row holds once written. */
  function Reloaded<V>(c: SqlCache<V>, data: Option<V>): Option<V> {
    match data
    case None => None
    case Some(v) => Some(c.json(v))
  }

  /** A row is served up to and including its expiry instant. */
  predicate SqlAlive<V>(c: SqlCache<V>, key: string, now: real) {
    key in c.rows && !(now > c.rows[key].stamp)
  }

  /** `SQLiteCache.get`: an expired row is deleted. */
  function SqlGet<V>(c: SqlCache<V>, key: string, now: real): (r: (SqlCache<V>, Option<V>))
    ensures r.0.ttl == c.ttl && r.0.json == c.json
    ensures SqlAlive(c, key, now) ==> r.0 == c && r.1 == c.rows[key].data
    ensures key in c.rows && !SqlAlive(c, key, now) ==> r.0.rows == c.rows - {key} && r.1 == None
    ensures key !in c.rows ==> r == (c, None)
  {
    if key !in c.rows then (c, None)
    else if now > c.rows[key].stamp then (c.(rows := c.rows - {key}), None)
    else (c, c.rows[key].data)
  }

  /** `SQLiteCache.set`: INSERT OR REPLACE of the serialised value with
      `expires_at = now + ttl`. */
  function SqlSet<V>(c: SqlCache<V>, key: string, data: Option<V>, now: real): (r: SqlCache<V>)
    ensures r.ttl == c.ttl && r.json == c.json
    ensures key in r.rows && r.rows[key] == Entry(Reloaded(c, data), now + c.ttl)
    ensures forall k | k in c.rows && k != key :: k in r.rows && r.rows[k] == c.rows[k]
    ensures r.rows.Keys == c.rows.Keys + {key}
  {
    c.(rows := c.rows[key := Entry(Reloaded(c, data), now + c.ttl)])
  }

  function SqlClear<V>(c: SqlCache<V>): (r: SqlCache<V>)
    ensures r.ttl == c.ttl && r.json == c.json && |r.rows| == 0
  {
    c.(rows := map[])
  }

  /** A value set at `t` is returned, as its JSON round trip, exactly while
      `now <= t + ttl`. */
  lemma SqlSetGet<V>(c: SqlCache<V>, key: string, data: Option<V>, t: real, now: real, other: string)
    ensures SqlGet(SqlSet(c, key, data, t), key, now).1 == if now <= t + c.ttl then Reloaded(c, data) else None
    ensures other != key ==> SqlGet(SqlSet(c, key, data, t), other, now).1 == SqlGet(c, other, now).1
    ensures SqlGet(SqlClear(c), key, now).1 == None
  {
  }

  /** The two backends differ exactly at the boundary: a value read `ttl`
      seconds after it was set is a miss in memory and a hit in SQLite. */
  lemma ExpiryBoundaryDiffers<V>(ttl: real, key: string, v: V, t: real, json: V -> V)
    ensures MemGet(MemSet(MemoryCache(map[], ttl), key, Some(v), t), key, t + ttl).1 == None
    ensures SqlGet(SqlSet(SqlCache(map[], ttl, json), key, Some(v), t), key, t + ttl).1 == Some(json(v))
  {
  }

  /** `SQLiteCache.get_or_fetch`. */
  function SqlGetOrFetch<V>(c: SqlCache<V>, key: string, now: real, fetched: Option<V>): (r: (SqlCache<V>, Option<V>, bool))
    ensures !r.2 <==> SqlAlive(c, key, now) && c.rows[key].data.Some?
    ensures !r.2 ==> r.0 == c && r.1 == c.rows[key].data
    ensures r.2 ==> r.1 == fetched && r.0 == SqlSet(SqlGet(c, key, now).0, key, fetched, now)
  {
    var (c', cached) := SqlGet(c, key, now);
    if cached.Some? then (c', cached, false)
    else (SqlSet(c', key, fetched, now), fetched, true)
  }

  lemma SqlNoneNeverServed<V>(c: SqlCache<V>, key: string, now: real, now': real, f': Option<V>)
    ensures var r := SqlGetOrFetch(c, key, now, None);
      r.2 ==> key in r.0.rows && r.0.rows[key].data == None && SqlGetOrFetch(r.0, key, now', f').2
  {
  }

  /** Keys of the rows still alive at `now` (`expires_at >= now`). */
  function AliveKeys<V>(c: SqlCache<V>, now: real): (r: set<string>)
    ensures r <= c.rows.Keys
    ensures forall k | k in c.rows :: k in r <==> c.rows[k].stamp >= now
  {
    set k | k in c.rows && c.rows[k].stamp >= now
  }

  /** `purge_expired`: delete the rows with `expires_at < now`; the count
      returned is the number of rows deleted. */
  function PurgeExpired<V>(c: SqlCache<V>, now: real): (r: (SqlCache<V>, int))
    ensures r.0.ttl == c.ttl
    ensures r.0.rows.Keys == AliveKeys(c, now)
    ensures forall k | k in r.0.rows :: r.0.rows[k] == c.rows[k]
    ensures r.1 == |c.rows| - |r.0.rows| && r.1 >= 0
  {
    var kept := map k | k in AliveKeys(c, now) :: c.rows[k];
    assert kept.Keys == AliveKeys(c, now);
    SubsetCard(AliveKeys(c, now), c.rows.Keys);
    (c.(rows := kept), |c.rows| - |kept|)
  }

  lemma SubsetCard<T>(a: set<T>, b: set<T>)
    requires a <= b
    ensures |a| <= |b|
  {
    assert b == a + (b - a);
  }

  datatype CacheStats = CacheStats(totalRows: int, alive: int, expired: int)

  /** `stats()` counts: every row is either alive or expired. */
  function Stats<V>(c: SqlCache<V>, now: real): (r: CacheStats)
    ensures r.totalRows == |c.rows| && r.alive == |AliveKeys(c, now)|
    ensures r.alive + r.expired == r.totalRows && 0 <= r.expired
  {
    SubsetCard(AliveKeys(c, now), c.rows.Keys);
    CacheStats(|c.rows|, |AliveKeys(c, now)|, |c.rows| - |AliveKeys(c, now)|)
  }

  /** After a purge at `now`, nothing the stats would call expired is left,
      and the alive count is what it was. */
  lemma PurgeThenStats<V>(c: SqlCache<V>, now: real)
    ensures var (c', n) := PurgeExpired(c, now);
      Stats(c', now).expired == 0 && Stats(c', now).alive == Stats(c, now).alive
      && n == Stats(c, now).expired
  {
    var c' := PurgeExpired(c, now).0;
    assert AliveKeys(c', now) == AliveKeys(c, now);
  }

  // ---------------------------------------------------------------------------
  // Keys
  // ---------------------------------------------------------------------------

  /** A keyword argument: its name and the JSON text of its value. */
  type Kwarg = (string, string)

  predicate NameLe(a: Kwarg, b: Kwarg) { StrLe(a.0, b.0) }

  /** Python keyword arguments never repeat a name. */
  predicate DistinctNames(kw: seq<Kwarg>) {
    forall i, j | 0 <= i < j < |kw| :: kw[i].0 != kw[j].0
  }

  /** `json.dumps(obj, sort_keys=True)` of a flat object: members in name
      order, `", "` and `": "` separators (string escaping is not modelled). */
  function Render(kw: seq<Kwarg>): string {
    "{" + RenderMembers(SortBy(kw, NameLe)) + "}"
  }

  function RenderMembers(kw: seq<Kwarg>): string
    decreases |kw|
  {
    if |kw| == 0 then ""
    else Quote(kw[0].0) + ": " + kw[0].1 + (if |kw| > 1 then ", " else "") + RenderMembers(kw[1..])
  }

  function Quote(s: string): string { "\"" + s + "\"" }

  /** `make_key`: the hash of the canonical JSON of `{"method": ..., **kwargs}`;
      the hash is a parameter. */
  function MakeKey(hash: string -> string, methodName: string, kwargs: seq<Kwarg>): string {
    hash(Render([("method", Quote(methodName))] + kwargs))
  }

  /** The legacy `_get_cache_key`: the method name, a colon, and the hash of
      the canonical JSON of the keyword arguments alone. */
  function LegacyKey(hash: string -> string, methodName: string, kwargs: seq<Kwarg>): (r: string)
    ensures |r| > |methodName| && r[..|methodName| + 1] == methodName + ":"
  {
    methodName + ":" + hash(Render(kwargs))
  }

  lemma NameLeTotalPreorder()
    ensures TotalPreorder(NameLe)
  {
    forall a: Kwarg, b: Kwarg ensures NameLe(a, b) || NameLe(b, a) {
      StrLeTotal(a.0, b.0);
    }
    forall a: Kwarg, b: Kwarg, c: Kwarg | NameLe(a, b) && NameLe(b, c) ensures NameLe(a, c) {
      StrLeTrans(a.0, b.0, c.0);
    }
  }

  /** Elements sharing a name are the same element. */
  predicate NameDetermines(s: seq<Kwarg>) {
    forall p, q | p in s && q in s && p.0 == q.0 :: p == q
  }

  /** Two name-sorted arrangements of the same arguments are identical. */
  lemma {:induction false} SortedUnique(a: seq<Kwarg>, b: seq<Kwarg>)
    requires multiset(a) == multiset(b)
    requires Sorted(a, NameLe) && Sorted(b, NameLe)
    requires NameDetermines(a)
    ensures a == b
    decreases |a|
  {
    assert |a| == |multiset(a)| == |multiset(b)| == |b|;
    if |a| > 0 {
      assert a[0] in multiset(b);
      var j :| 0 <= j < |b| && b[j] == a[0];
      assert b[0] in multiset(a);
      var i :| 0 <= i < |a| && a[i] == b[0];
      assert StrLe(a[0].0, b[0].0) by {
        if i > 0 { assert NameLe(a[0], a[i]); } else { StrLeRefl(a[0].0); }
      }
      assert StrLe(b[0].0, a[0].0) by {
        if j > 0 { assert NameLe(b[0], b[j]); } else { StrLeRefl(b[0].0); }
      }
      StrLeAntisym(a[0].0, b[0].0);
      assert a[i] in a && a[0] in a;
      assert b[0] == a[0];
      MultisetTail(a, b);
      SortedTail(a, NameLe);
      SortedTail(b, NameLe);
      assert NameDetermines(a[1..]) by {
        forall p, q | p in a[1..] && q in a[1..] && p.0 == q.0 ensures p == q {
          assert p in a && q in a;
        }
      }
      SortedUnique(a[1..], b[1..]);
    }
  }

  lemma MultisetTail<T>(a: seq<T>, b: seq<T>)
    requires multiset(a) == multiset(b) && |a| > 0 && |b| > 0 && a[0] == b[0]
    ensures multiset(a[1..]) == multiset(b[1..])
  {
    assert a == [a[0]] + a[1..] && b == [b[0]] + b[1..];
    assert multiset(a) == multiset{a[0]} + multiset(a[1..]);
    assert multiset(b) == multiset{b[0]} + multiset(b[1..]);
    forall x ensures multiset(a[1..])[x] == multiset(b[1..])[x] {
      assert multiset(a)[x] == multiset{a[0]}[x] + multiset(a[1..])[x];
      assert multiset(b)[x] == multiset{a[0]}[x] + multiset(b[1..])[x];
    }
  }

  /** The canonical rendering does not depend on the order the arguments
      were passed in. */
  lemma RenderOrderIndependent(kw1: seq<Kwarg>, kw2: seq<Kwarg>)
    requires DistinctNames(kw1) && multiset(kw1) == multiset(kw2)
    ensures Render(kw1) == Render(kw2)
  {
    NameLeTotalPreorder();
    SortBySorted(kw1, NameLe);
    SortBySorted(kw2, NameLe);
    var s1 := SortBy(kw1, NameLe);
    assert NameDetermines(s1) by {
      forall p, q | p in s1 && q in s1 && p.0 == q.0 ensures p == q {
        assert p in multiset(s1) && q in multiset(s1);
        assert p in multiset(kw1) && q in multiset(kw1);
        var i :| 0 <= i < |kw1| && kw1[i] == p;
        var j :| 0 <= j < |kw1| && kw1[j] == q;
        assert i == j;
      }
    }
    SortedUnique(s1, SortBy(kw2, NameLe));
  }

  /** `make_key` and the legacy key are independent of keyword order. */
  lemma MakeKeyOrderIndependent(hash: string -> string, methodName: string, kw1: seq<Kwarg>, kw2: seq<Kwarg>)
    requires DistinctNames(kw1) && multiset(kw1) == multiset(kw2)
    requires forall i | 0 <= i < |kw1| :: kw1[i].0 != "method"
    ensures MakeKey(hash, methodName, kw1) == MakeKey(hash, methodName, kw2)
    ensures LegacyKey(hash, methodName, kw1) == LegacyKey(hash, methodName, kw2)
  {
    var m: Kwarg := ("method", Quote(methodName));
    assert DistinctNames([m] + kw1) by {
      forall i, j | 0 <= i < j < |[m] + kw1| ensures ([m] + kw1)[i].0 != ([m] + kw1)[j].0 {
        if i == 0 { assert ([m] + kw1)[j] == kw1[j - 1]; }
        else { assert ([m] + kw1)[i] == kw1[i - 1] && ([m] + kw1)[j] == kw1[j - 1]; }
      }
    }
    assert multiset([m] + kw1) == multiset([m] + kw2);
    RenderOrderIndependent([m] + kw1, [m] + kw2);
    RenderOrderIndependent(kw1, kw2);
  }
}
