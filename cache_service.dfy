/**
 * The cache-aside lookup service of cache/app.py: a Redis store of
 * serialized records with per-key expiry in front of the MongoDB
 * collection, the global hit/miss counters, the eviction policy flag, and
 * the two eviction-metadata dictionaries that are written on cache hits.
 *
 * Clock readings, the random TTL draw and failures of Redis or MongoDB are
 * parameters of the operations; JSON (de)serialisation is the identity.
 */
module CacheApp {
  import opened Optional
  import opened Strings
  import opened Dicts
  import opened Documents

  /** `MAX_CACHE_SIZE`. */
  const MaxCacheSize: nat := 100

  /** The default bounds of `get_random_ttl`. */
  const MinTtl: int := 300
  const MaxTtl: int := 900

  const KeyPrefix: string := "event:"
  const WazePrefix: string := "waze_"

  /**
   * `random.randint(minTtl, maxTtl)`, the random draw given as `draw`:
   * no value (a `ValueError`) for an empty range, otherwise a value in the
   * inclusive range.
   */
  function GetRandomTtl(minTtl: int, maxTtl: int, draw: nat): (ttl: Option<int>)
    ensures ttl.Some? <==> minTtl <= maxTtl
    ensures ttl.Some? ==> minTtl <= ttl.value <= maxTtl
  {
    if minTtl <= maxTtl then Some(minTtl + draw % (maxTtl - minTtl + 1)) else None
  }

  /** Every TTL of the range is the outcome of some draw. */
  lemma EveryTtlIsDrawn(minTtl: int, maxTtl: int, ttl: int)
    requires minTtl <= ttl <= maxTtl
    ensures GetRandomTtl(minTtl, maxTtl, (ttl - minTtl) as nat) == Some(ttl)
  {
    var n := ttl - minTtl;
    assert n < maxTtl - minTtl + 1;
    assert n % (maxTtl - minTtl + 1) == n;
  }

  /** A Redis value and the clock reading at which it expires (`SETEX`). */
  datatype Entry = Entry(value: Doc, expiresAt: int)

  /** A key is present for Redis `GET` only before its expiry time. */
  predicate IsLive(store: map<string, Entry>, key: string, now: int) {
    key in store && now < store[key].expiresAt
  }

  function LiveKeys(store: map<string, Entry>, now: int): set<string> {
    set k | k in store && now < store[k].expiresAt
  }

  /** Redis `DBSIZE`: the number of keys not yet expired. */
  function DbSize(store: map<string, Entry>, now: int): nat {
    |LiveKeys(store, now)|
  }

  /** Writing a live value under a key that was not live adds exactly one key to `DBSIZE`. */
  lemma WriteGrowsDbSize(store: map<string, Entry>, key: string, e: Entry, now: int)
    requires !IsLive(store, key, now) && now < e.expiresAt
    ensures DbSize(store[key := e], now) == DbSize(store, now) + 1
  {
    assert LiveKeys(store[key := e], now) == LiveKeys(store, now) + {key};
  }

  /** Deleting a key removes at most one key from `DBSIZE`, and exactly one when it was live. */
  lemma DeleteShrinksDbSizeByAtMostOne(store: map<string, Entry>, key: string, now: int)
    ensures DbSize(store - {key}, now) >= DbSize(store, now) - 1
    ensures DbSize(store - {key}, now) <= DbSize(store, now)
    ensures IsLive(store, key, now) ==> DbSize(store - {key}, now) == DbSize(store, now) - 1
  {
    assert LiveKeys(store - {key}, now) == LiveKeys(store, now) - {key};
  }

  /** `cache_policy`; `set_policy` lets it hold only these two values. */
  datatype Policy = LRU | LFU

  function PolicyName(p: Policy): string {
    match p
    case LRU => "LRU"
    case LFU => "LFU"
  }

  datatype Source = FromCache | FromDatabase

  /** The `source` field of a successful `/query` response. */
  function SourceName(s: Source): string {
    match s
    case FromCache => "cache"
    case FromDatabase => "database"
  }

  /** What `/query` answers. */
  datatype Response = Served(events: Doc, source: Source) | NotFound | ServerError

  function Status(r: Response): int {
    match r
    case Served(_, _) => 200
    case NotFound => 404
    case ServerError => 500
  }

  /**
   * Which of the Redis and MongoDB calls of one request raise: Redis `GET`
   * (app.py:181, outside any handler), MongoDB `find_one`, Redis `DBSIZE`
   * before eviction, the `DELETE` of the eviction victim, and `SETEX`.
   */
  datatype Faults = Faults(getFails: bool, findFails: bool, sizeFails: bool, deleteFails: bool, writeFails: bool)

  const NoFaults := Faults(false, false, false, false, false)

  function CacheKey(id: string): string {
    KeyPrefix + id
  }

  /**
   * The MongoDB lookup of a miss: by `uuid`, and only when that finds
   * nothing and the id has the Waze prefix, by `waze_id` without the prefix.
   */
  function FindRecord(records: seq<Doc>, id: string): (r: Option<Doc>)
    ensures r.Some? ==> r.value in records
    ensures FindOne(records, "uuid", Text(id)).Some? ==> r.Some? && Matches(r.value, "uuid", Text(id))
    ensures r.Some? && !Matches(r.value, "uuid", Text(id)) ==>
      StartsWith(id, WazePrefix) && Matches(r.value, "waze_id", Text(id[|WazePrefix|..]))
    ensures r.None? <==>
      (forall d :: d in records ==> !Matches(d, "uuid", Text(id))) &&
      (StartsWith(id, WazePrefix) ==> forall d :: d in records ==> !Matches(d, "waze_id", Text(id[|WazePrefix|..])))
  {
    var byUuid := FindOne(records, "uuid", Text(id));
    if byUuid.None? && StartsWith(id, WazePrefix) then FindOne(records, "waze_id", Text(id[|WazePrefix|..]))
    else byUuid
  }

  /** `i` is the item that `min(d.items(), key=lambda x: x[1])` picks. */
  predicate IsFirstMin(d: Dict<int>, i: int) {
    && 0 <= i < |d|
    && (forall j :: 0 <= j < |d| ==> d[i].1 <= d[j].1)
    && (forall j :: 0 <= j < i ==> d[j].1 > d[i].1)
  }

  /**
   * The key `evict_from_cache` deletes: under LRU the first key of minimal
   * `cache_usage_time`, under LFU the first key of minimal
   * `cache_hits_counter`; nothing when that policy's dictionary is empty.
   */
  function Victim(policy: Policy, usageTime: Dict<int>, hitsCounter: Dict<int>): (v: Option<string>)
    ensures var d := if policy == LRU then usageTime else hitsCounter;
      && (v.None? <==> d == [])
      && (v.Some? ==> exists i :: IsFirstMin(d, i) && d[i].0 == v.value)
  {
    var d := if policy == LRU then usageTime else hitsCounter;
    if d == [] then None
    else
      var i := FirstMinIndex(d);
      assert IsFirstMin(d, i);
      Some(d[i].0)
  }

  /** The eviction victim is always a key of the active policy's dictionary. */
  lemma VictimInDict(policy: Policy, usageTime: Dict<int>, hitsCounter: Dict<int>)
    requires Victim(policy, usageTime, hitsCounter).Some?
    ensures policy == LRU ==> Victim(policy, usageTime, hitsCounter).value in Keys(usageTime)
    ensures policy == LFU ==> Victim(policy, usageTime, hitsCounter).value in Keys(hitsCounter)
  {
    var d := if policy == LRU then usageTime else hitsCounter;
    var i :| IsFirstMin(d, i) && d[i].0 == Victim(policy, usageTime, hitsCounter).value;
  }

  /**
   * The hit rate of `/stats` in percent: 0 with no queries, otherwise
   * `hits / (hits + misses) * 100`.
   */
  function HitRate(hits: nat, misses: nat): (r: real)
    ensures hits + misses == 0 ==> r == 0.0
    ensures hits + misses > 0 ==> r * (hits + misses) as real == 100.0 * hits as real
    ensures 0.0 <= r <= 100.0
  {
    if hits + misses == 0 then 0.0
    else
      var t := (hits + misses) as real;
      var r := (hits as real / t) * 100.0;
      assert r * t == 100.0 * hits as real;
      r
  }

  /** Comparing two fractions with positive denominators by cross-multiplying. */
  lemma FractionLe(a: real, b: real, c: real, d: real)
    requires b > 0.0 && d > 0.0 && a * d <= c * b
    ensures a / b <= c / d
  {
    var x, y := a / b, c / d;
    assert x * b == a && y * d == c;
    assert (x - y) * (b * d) <= 0.0;
    assert b * d > 0.0;
  }

  /** A hit never lowers the hit rate and a miss never raises it. */
  lemma HitRateMonotone(hits: nat, misses: nat)
    ensures HitRate(hits + 1, misses) >= HitRate(hits, misses)
    ensures HitRate(hits, misses + 1) <= HitRate(hits, misses)
  {
    var h, t := hits as real, (hits + misses) as real;
    if hits + misses > 0 {
      FractionLe(h, t, h + 1.0, t + 1.0);
      FractionLe(h, t + 1.0, h, t);
      assert HitRate(hits + 1, misses) == ((h + 1.0) / (t + 1.0)) * 100.0;
      assert HitRate(hits, misses + 1) == (h / (t + 1.0)) * 100.0;
      assert HitRate(hits, misses) == (h / t) * 100.0;
    }
  }

  /** A `/stats` snapshot without the Redis diagnostics. */
  datatype StatsView = StatsView(hits: nat, misses: nat, totalQueries: nat, hitRate: real, policy: string, cacheSize: nat)

  /** `set_policy`'s test: the upper-cased request names one of the two policies. */
  predicate AcceptsPolicy(requested: string) {
    Upper(requested) == "LRU" || Upper(requested) == "LFU"
  }

  /**
   * Exactly the three-letter spellings of "lru" and "lfu" in any mix of
   * cases are accepted.
   */
  lemma AcceptedPolicyInputs(s: string)
    ensures AcceptsPolicy(s) <==>
      |s| == 3 && (s[0] == 'L' || s[0] == 'l') && (s[2] == 'U' || s[2] == 'u') &&
      (s[1] == 'R' || s[1] == 'r' || s[1] == 'F' || s[1] == 'f')
  {
    UpperMatchesWord(s, "LRU");
    UpperMatchesWord(s, "LFU");
  }

  /**
   * What the code keeps true of the eviction metadata: real dictionaries,
   * written only for keys that were hit, every counter at least 1 and all
   * counters together no more than the global hit count.
   */
  predicate MetadataOk(usageTime: Dict<int>, hitsCounter: Dict<int>, hitKeys: set<string>, hits: nat) {
    && Distinct(usageTime) && Distinct(hitsCounter)
    && Keys(usageTime) <= hitKeys && Keys(hitsCounter) <= hitKeys
    && (forall i :: 0 <= i < |hitsCounter| ==> hitsCounter[i].1 >= 1)
    && Sum(hitsCounter) <= hits
  }

  /** Deleting a key from either dictionary keeps the metadata invariant. */
  lemma RemoveKeepsMetadata(usageTime: Dict<int>, hitsCounter: Dict<int>, hitKeys: set<string>, hits: nat, k: string)
    requires MetadataOk(usageTime, hitsCounter, hitKeys, hits)
    ensures MetadataOk(Remove(usageTime, k), hitsCounter, hitKeys, hits)
    ensures MetadataOk(usageTime, Remove(hitsCounter, k), hitKeys, hits)
  {
    RemoveGet(usageTime, k);
    RemoveGet(hitsCounter, k);
    RemoveItems(hitsCounter, k);
    SumRemove(hitsCounter, k);
    var r := Remove(hitsCounter, k);
    forall i | 0 <= i < |r| ensures r[i].1 >= 1 {
      assert r[i] in r;
    }
    if k in Keys(hitsCounter) {
      var j :| 0 <= j < |hitsCounter| && hitsCounter[j].0 == k;
      assert hitsCounter[j] in hitsCounter;
      GetIs(hitsCounter, k, hitsCounter[j].1);
    }
  }

  /** A hit's metadata writes keep the metadata invariant. */
  lemma HitKeepsMetadata(usageTime: Dict<int>, hitsCounter: Dict<int>, hitKeys: set<string>, hits: nat, key: string, now: int)
    requires MetadataOk(usageTime, hitsCounter, hitKeys, hits)
    ensures MetadataOk(Put(usageTime, key, now), Put(hitsCounter, key, Get(hitsCounter, key).GetOr(0) + 1),
                       hitKeys + {key}, hits + 1)
  {
    var count := Get(hitsCounter, key).GetOr(0);
    var c := Put(hitsCounter, key, count + 1);
    PutGet(usageTime, key, now);
    PutGet(hitsCounter, key, count + 1);
    SumPut(hitsCounter, key, count + 1);
    if Find(hitsCounter, key).Some? {
      var i := Find(hitsCounter, key).value;
      GetIs(hitsCounter, key, hitsCounter[i].1);
      assert c == hitsCounter[i := (key, count + 1)];
    } else {
      assert c == hitsCounter + [(key, count + 1)];
    }
  }

  /** The part of the service's state that a miss may change. */
  datatype CacheState = CacheState(store: map<string, Entry>, usageTime: Dict<int>, hitsCounter: Dict<int>)

  /**
   * The key a miss's write-back evicts: only when `DBSIZE` answers with at
   * least `MAX_CACHE_SIZE`, and only when the victim's `DELETE` goes through
   * (a failing one is caught inside `evict_from_cache` before the `del`).
   */
  function Evicted(s: CacheState, policy: Policy, now: int, f: Faults): Option<string> {
    if !f.sizeFails && !f.deleteFails && DbSize(s.store, now) >= MaxCacheSize
    then Victim(policy, s.usageTime, s.hitsCounter)
    else None
  }

  /**
   * The state after writing `record` back under `key` on a miss: the evicted
   * key leaves Redis and the active policy's dictionary, then `SETEX` stores
   * the record with a random TTL unless `DBSIZE` or `SETEX` raised.
   */
  function WriteBackState(s: CacheState, policy: Policy, key: string, record: Doc, now: int, ttlDraw: nat, f: Faults): CacheState {
    var e := if !f.sizeFails && DbSize(s.store, now) >= MaxCacheSize then AfterEvict(s, policy, f.deleteFails) else s;
    var ttl := GetRandomTtl(MinTtl, MaxTtl, ttlDraw).value;
    e.(store := if !f.sizeFails && !f.writeFails then e.store[key := Entry(record, now + ttl)] else e.store)
  }

  /**
   * The state after `evict_from_cache`: the victim leaves Redis and the
   * active policy's dictionary, unless there is none or its `DELETE` raised.
   */
  function AfterEvict(s: CacheState, policy: Policy, deleteFails: bool): CacheState {
    var v := Victim(policy, s.usageTime, s.hitsCounter);
    if v.None? || deleteFails then s
    else if policy == LRU then CacheState(s.store - {v.value}, Remove(s.usageTime, v.value), s.hitsCounter)
    else CacheState(s.store - {v.value}, s.usageTime, Remove(s.hitsCounter, v.value))
  }

  /**
   * What a write-back does: the record stays live for at least `MinTtl`
   * seconds when nothing raised; the evicted key is gone from Redis and from
   * the active policy's dictionary; every other key keeps its entry; a
   * failing `DBSIZE` changes nothing at all.
   */
  lemma WriteBackStore(s: CacheState, policy: Policy, key: string, record: Doc, now: int, ttlDraw: nat, f: Faults)
    ensures var r := WriteBackState(s, policy, key, record, now, ttlDraw, f);
      && (!f.sizeFails && !f.writeFails ==>
            key in r.store && r.store[key].value == record
            && now + MinTtl <= r.store[key].expiresAt <= now + MaxTtl
            && forall t :: now <= t < now + MinTtl ==> IsLive(r.store, key, t))
      && (f.sizeFails ==> r == s)
      && (forall v :: Evicted(s, policy, now, f) == Some(v) && v != key ==> v !in r.store)
      && (forall k :: k != key && Evicted(s, policy, now, f) != Some(k) ==>
            (k in r.store <==> k in s.store) && (k in s.store ==> r.store[k] == s.store[k]))
      && (Evicted(s, policy, now, f).None? ==> r.usageTime == s.usageTime && r.hitsCounter == s.hitsCounter)
      && (Evicted(s, policy, now, f).Some? ==>
            var v := Evicted(s, policy, now, f).value;
            && (policy == LRU ==> r.usageTime == Remove(s.usageTime, v) && r.hitsCounter == s.hitsCounter)
            && (policy == LFU ==> r.hitsCounter == Remove(s.hitsCounter, v) && r.usageTime == s.usageTime))
  {
  }

  /**
   * At capacity, a miss whose victim is still live keeps Redis at exactly
   * `MAX_CACHE_SIZE` keys: one live key goes, the new one comes.
   */
  lemma WriteBackAtCapacity(s: CacheState, policy: Policy, key: string, record: Doc, now: int, ttlDraw: nat, v: string)
    requires DbSize(s.store, now) == MaxCacheSize && !IsLive(s.store, key, now)
    requires Victim(policy, s.usageTime, s.hitsCounter) == Some(v) && IsLive(s.store, v, now)
    ensures Evicted(s, policy, now, NoFaults) == Some(v)
    ensures DbSize(WriteBackState(s, policy, key, record, now, ttlDraw, NoFaults).store, now) == MaxCacheSize
  {
    var ttl := GetRandomTtl(MinTtl, MaxTtl, ttlDraw).value;
    var kept := s.store - {v};
    assert WriteBackState(s, policy, key, record, now, ttlDraw, NoFaults).store == kept[key := Entry(record, now + ttl)];
    DeleteShrinksDbSizeByAtMostOne(s.store, v, now);
    WriteGrowsDbSize(kept, key, Entry(record, now + ttl), now);
  }

  /**
   * A key that was never served as a hit is never the eviction victim, under
   * either policy: both metadata dictionaries are written only on hits.
   */
  lemma LruEvictsOnlyHitKeys(usageTime: Dict<int>, hitsCounter: Dict<int>, hitKeys: set<string>, hits: nat, k: string)
    requires MetadataOk(usageTime, hitsCounter, hitKeys, hits) && k !in hitKeys
    ensures Victim(LRU, usageTime, hitsCounter) != Some(k)
    ensures Victim(LFU, usageTime, hitsCounter) != Some(k)
  {
  }

  /**
   * The key with the strictly oldest recorded use is the LRU victim whether
   * or not its Redis entry is still live: the choice reads only the metadata.
   */
  lemma OldestUseEvicted(usageTime: Dict<int>, hitsCounter: Dict<int>, i: nat)
    requires i < |usageTime|
    requires forall j :: 0 <= j < |usageTime| && j != i ==> usageTime[j].1 > usageTime[i].1
    ensures Victim(LRU, usageTime, hitsCounter) == Some(usageTime[i].0)
  {
  }

  class CacheService {
    /** The Redis database: key to serialized record and expiry time. */
    var store: map<string, Entry>
    /** The `traffic_events` collection, read only by this service. */
    var records: seq<Doc>
    /** `cache_stats`. */
    var hits: nat
    var misses: nat
    /** `cache_policy`. */
    var policy: Policy
    /** `cache_usage_time`: key to the clock reading of its last hit. */
    var usageTime: Dict<int>
    /** `cache_hits_counter`: key to its number of hits. */
    var hitsCounter: Dict<int>
    /** The keys ever served as a cache hit. */
    ghost var hitKeys: set<string>

    ghost predicate Valid()
      reads this
    {
      && MetadataOk(usageTime, hitsCounter, hitKeys, hits)
      && (forall k {:trigger StartsWith(k, KeyPrefix)} :: k in store ==> StartsWith(k, KeyPrefix))
      && (forall k {:trigger StartsWith(k, KeyPrefix)} :: k in hitKeys ==> StartsWith(k, KeyPrefix))
    }

    /** The module state when the service starts. */
    constructor (collection: seq<Doc>)
      ensures Valid()
      ensures store == map[] && records == collection
      ensures hits == 0 && misses == 0 && policy == LRU
      ensures usageTime == [] && hitsCounter == [] && hitKeys == {}
    {
      store := map[];
      records := collection;
      hits, misses := 0, 0;
      policy := LRU;
      usageTime, hitsCounter := [], [];
      hitKeys := {};
    }

    /** `update_stats`: counts "hit" and "miss", ignores the traffic-class label and any other result type. */
    method UpdateStats(resultType: string, distribution: string)
      requires Valid()
      modifies this`hits, this`misses
      ensures Valid()
      ensures hits == old(hits) + (if resultType == "hit" then 1 else 0)
      ensures misses == old(misses) + (if resultType == "miss" then 1 else 0)
    {
      if resultType == "hit" {
        hits := hits + 1;
      } else if resultType == "miss" {
        misses := misses + 1;
      }
    }

    /**
     * `evict_from_cache`: deletes the victim of the active policy from Redis
     * and from that policy's dictionary only; a no-op when that dictionary
     * is empty. When the `DELETE` raises, the handler swallows it before the
     * `del`, so both Redis and the dictionary keep the victim. The victim has
     * been hit at some time, but may no longer be live.
     */
    method Evict(deleteFails: bool)
      requires Valid()
      modifies this`store, this`usageTime, this`hitsCounter
      ensures Valid()
      ensures State() == AfterEvict(old(State()), policy, deleteFails)
      ensures var v := Victim(policy, old(usageTime), old(hitsCounter));
        && (v.None? || deleteFails ==>
              store == old(store) && usageTime == old(usageTime) && hitsCounter == old(hitsCounter))
        && (v.Some? && !deleteFails ==>
              && v.value in hitKeys
              && store == old(store) - {v.value}
              && (policy == LRU ==> usageTime == Remove(old(usageTime), v.value) && hitsCounter == old(hitsCounter))
              && (policy == LFU ==> hitsCounter == Remove(old(hitsCounter), v.value) && usageTime == old(usageTime)))
    {
      VictimInDictMaybe();
      if policy == LRU {
        if usageTime != [] {
          var oldest := usageTime[FirstMinIndex(usageTime)].0;
          if deleteFails {
            return;
          }
          DropKey(oldest);
          usageTime := Remove(usageTime, oldest);
        }
      } else {
        if hitsCounter != [] {
          var leastUsed := hitsCounter[FirstMinIndex(hitsCounter)].0;
          if deleteFails {
            return;
          }
          DropKey(leastUsed);
          hitsCounter := Remove(hitsCounter, leastUsed);
        }
      }
    }

    /** The `redis_client.delete` of an eviction. */
    method DropKey(victim: string)
      requires Valid()
      modifies this`store
      ensures Valid()
      ensures store == old(store) - {victim}
      ensures MetadataOk(Remove(usageTime, victim), hitsCounter, hitKeys, hits)
      ensures MetadataOk(usageTime, Remove(hitsCounter, victim), hitKeys, hits)
    {
      store := store - {victim};
      RemoveKeepsMetadata(usageTime, hitsCounter, hitKeys, hits, victim);
    }

    /** The `redis_client.setex` of a write-back: stores exactly that entry. */
    method Setex(key: string, e: Entry)
      requires Valid() && StartsWith(key, KeyPrefix)
      modifies this`store
      ensures Valid()
      ensures store == old(store)[key := e]
    {
      store := store[key := e];
    }

    lemma VictimInDictMaybe()
      requires Valid()
      ensures var v := Victim(policy, usageTime, hitsCounter); v.Some? ==> v.value in hitKeys
    {
      if Victim(policy, usageTime, hitsCounter).Some? {
        VictimInDict(policy, usageTime, hitsCounter);
      }
    }

    /**
     * The cache-hit branch of `query_event`: count a hit, record the clock
     * reading for LRU and one more hit for LFU (from 0 for a new key), and
     * answer with the cached value; Redis is not written.
     */
    method ServeHit(key: string, distribution: string, now: int) returns (resp: Response)
      requires Valid() && IsLive(store, key, now)
      modifies this`hits, this`misses, this`usageTime, this`hitsCounter, this`hitKeys
      ensures Valid()
      ensures hits == old(hits) + 1 && misses == old(misses)
      ensures usageTime == Put(old(usageTime), key, now)
      ensures hitsCounter == Put(old(hitsCounter), key, Get(old(hitsCounter), key).GetOr(0) + 1)
      ensures hitKeys == old(hitKeys) + {key}
      ensures resp == Served(store[key].value, FromCache)
    {
      // `cache_hits_counter[key]` starts at 0 for a new key and is then incremented
      var count := Get(hitsCounter, key).GetOr(0);
      var used, counted := Put(usageTime, key, now), Put(hitsCounter, key, count + 1);
      resp := Served(store[key].value, FromCache);
      HitKeepsMetadata(usageTime, hitsCounter, hitKeys, hits, key, now);
      UpdateStats("hit", distribution);
      usageTime, hitsCounter, hitKeys := used, counted, hitKeys + {key};
    }

    /** The part of the state a miss may change. */
    function State(): CacheState
      reads this
    {
      CacheState(store, usageTime, hitsCounter)
    }

    /**
     * What `query_event` does with a record it found on a miss: evict once
     * if Redis already holds `MAX_CACHE_SIZE` live keys (skipped when
     * `DBSIZE` raises), then `SETEX` the record with a random TTL (lost when
     * the write raises); every Redis failure here is caught and logged.
     */
    method WriteBack(key: string, record: Doc, now: int, ttlDraw: nat, f: Faults)
      requires Valid() && StartsWith(key, KeyPrefix)
      modifies this`store, this`usageTime, this`hitsCounter
      ensures Valid()
      ensures State() == WriteBackState(old(State()), policy, key, record, now, ttlDraw, f)
    {
      if f.sizeFails {
        return;
      }
      var full := DbSize(store, now) >= MaxCacheSize;
      if full {
        Evict(f.deleteFails);
      }
      var ttl := GetRandomTtl(MinTtl, MaxTtl, ttlDraw).value;
      if !f.writeFails {
        Setex(key, Entry(record, now + ttl));
      }
    }

    /**
     * The cache-miss branch of `query_event`: count a miss, look the record
     * up in MongoDB (by `uuid`, then by `waze_id` for a `waze_` id), and
     * write back what was found. A failed Redis write does not change the
     * answer; a failed MongoDB lookup is a server error.
     */
    method ServeMiss(id: string, key: string, distribution: string, now: int, ttlDraw: nat, f: Faults)
      returns (resp: Response)
      requires Valid() && key == CacheKey(id)
      modifies this`hits, this`misses, this`store, this`usageTime, this`hitsCounter
      ensures Valid()
      ensures misses == old(misses) + 1 && hits == old(hits)
      ensures f.findFails ==> resp == ServerError
      ensures !f.findFails && FindRecord(records, id).None? ==> resp == NotFound
      ensures !f.findFails && FindRecord(records, id).Some? ==>
        resp == Served(FindRecord(records, id).value, FromDatabase)
      ensures !resp.Served? ==> State() == old(State())
      ensures resp.Served? ==> State() == WriteBackState(old(State()), policy, key, resp.events, now, ttlDraw, f)
    {
      UpdateStats("miss", distribution);
      if f.findFails {
        resp := ServerError;
        return;
      }
      var event := FindRecord(records, id);
      if event.None? {
        resp := NotFound;
        return;
      }
      WriteBack(key, event.value, now, ttlDraw, f);
      resp := Served(event.value, FromDatabase);
    }

    /**
     * `query_event`. An absent or empty id makes the view return nothing,
     * which the web framework answers with a server error, and so does a
     * Redis `GET` that raises; otherwise the request is a hit exactly when
     * `"event:" + id` is live, and a hit or a miss is counted exactly once.
     */
    method Query(id: Option<string>, distribution: string, now: int, ttlDraw: nat, f: Faults)
      returns (resp: Response)
      requires Valid()
      modifies this`hits, this`misses, this`store, this`usageTime, this`hitsCounter, this`hitKeys
      ensures Valid()
      ensures (id.None? || id.value == "" || f.getFails) ==>
        && resp == ServerError && hits == old(hits) && misses == old(misses)
        && State() == old(State()) && hitKeys == old(hitKeys)
      ensures id.Some? && id.value != "" && !f.getFails ==>
        var key := CacheKey(id.value);
        && hits + misses == old(hits) + old(misses) + 1
        && (resp.Served? && resp.source == FromCache <==> IsLive(old(store), key, now))
        && (IsLive(old(store), key, now) ==>
              && hits == old(hits) + 1 && store == old(store)
              && resp == Served(old(store)[key].value, FromCache)
              && usageTime == Put(old(usageTime), key, now)
              && hitsCounter == Put(old(hitsCounter), key, Get(old(hitsCounter), key).GetOr(0) + 1)
              && hitKeys == old(hitKeys) + {key})
        && (!IsLive(old(store), key, now) ==>
              && misses == old(misses) + 1 && hitKeys == old(hitKeys)
              && (resp.Served? ==>
                    FindRecord(records, id.value).Some? && resp == Served(FindRecord(records, id.value).value, FromDatabase))
              && (resp == ServerError <==> f.findFails)
              && (resp == NotFound <==> !f.findFails && FindRecord(records, id.value).None?)
              && (!resp.Served? ==> State() == old(State()))
              && (resp.Served? ==> State() == WriteBackState(old(State()), policy, key, resp.events, now, ttlDraw, f)))
    {
      if id.None? || id.value == "" {
        resp := ServerError;
        return;
      }
      var key := CacheKey(id.value);
      if f.getFails {
        resp := ServerError;
        return;
      }
      if IsLive(store, key, now) {
        resp := ServeHit(key, distribution, now);
      } else {
        resp := ServeMiss(id.value, key, distribution, now, ttlDraw, f);
      }
    }

    /**
     * `set_policy`: the request's `policy` field, upper-cased (an absent one
     * reads as ""), becomes the policy if it is "LRU" or "LFU" (status 200);
     * any other text is refused with 400 and the policy is kept. A field that
     * is not text (null, a number, ...) has no `.upper()`: the handler raises
     * and the web framework answers a server error, again keeping the policy.
     */
    method SetPolicy(requested: Option<Field>) returns (status: int)
      requires Valid()
      modifies this`policy
      ensures Valid()
      ensures requested.Some? && !requested.value.Text? ==> status == 500 && policy == old(policy)
      ensures requested.None? || requested.value.Text? ==>
        var text := if requested.None? then "" else requested.value.s;
        && (status == 200 <==> AcceptsPolicy(text))
        && (status == 200 ==> PolicyName(policy) == Upper(text))
        && (status != 200 ==> status == 400 && policy == old(policy))
    {
      if requested.Some? && !requested.value.Text? {
        return 500;
      }
      var p := Upper(if requested.None? then "" else requested.value.s);
      if p == "LRU" {
        policy := LRU;
        status := 200;
      } else if p == "LFU" {
        policy := LFU;
        status := 200;
      } else {
        status := 400;
      }
    }

    /**
     * `clear_cache`: `FLUSHDB` empties Redis (200); the counters, the policy
     * and both eviction-metadata dictionaries are kept as they were. A
     * `FLUSHDB` that raises is answered with a server error and changes nothing.
     */
    method ClearCache(flushFails: bool) returns (status: int)
      requires Valid()
      modifies this`store
      ensures Valid()
      ensures flushFails ==> status == 500 && store == old(store)
      ensures !flushFails ==> status == 200 && store == map[]
    {
      if flushFails {
        return 500;
      }
      store := map[];
      status := 200;
    }

    /**
     * The counters, hit rate, policy and size reported by `get_stats`; the
     * `DBSIZE` for `cache_size` is outside the inner handler, so when it
     * raises the endpoint answers a server error (None).
     */
    function GetStats(now: int, sizeFails: bool): (s: Option<StatsView>)
      reads this
      ensures s.None? <==> sizeFails
      ensures s.Some? ==>
        && s.value.hits == hits && s.value.misses == misses
        && s.value.totalQueries == hits + misses
        && s.value.hitRate == HitRate(hits, misses)
        && 0.0 <= s.value.hitRate <= 100.0
        && (s.value.totalQueries == 0 ==> s.value.hitRate == 0.0)
        && (s.value.totalQueries > 0 ==> s.value.hitRate * s.value.totalQueries as real == 100.0 * hits as real)
        && s.value.policy == PolicyName(policy)
        && s.value.cacheSize == DbSize(store, now)
    {
      if sizeFails then None
      else
        var total := hits + misses;
        Some(StatsView(hits, misses, total, HitRate(hits, misses), PolicyName(policy), DbSize(store, now)))
    }
  }

  /**
   * `MAX_CACHE_SIZE` is not a bound the code keeps: at capacity, a miss whose
   * policy dictionary is empty (keys stored on misses and never hit have no
   * metadata) evicts nothing and still writes, so Redis ends up holding one
   * key more than the maximum.
   */
  method OverflowWhenNoVictim(c: CacheService, id: string, distribution: string, now: int, ttlDraw: nat)
    returns (resp: Response)
    requires c.Valid() && id != ""
    requires DbSize(c.store, now) == MaxCacheSize
    requires Victim(c.policy, c.usageTime, c.hitsCounter).None?
    requires !IsLive(c.store, CacheKey(id), now) && FindRecord(c.records, id).Some?
    modifies c
    ensures resp == Served(FindRecord(old(c.records), id).value, FromDatabase)
    ensures DbSize(c.store, now) == MaxCacheSize + 1
  {
    var key := CacheKey(id);
    ghost var before := c.store;
    resp := c.Query(Some(id), distribution, now, ttlDraw, NoFaults);
    var ttl := GetRandomTtl(MinTtl, MaxTtl, ttlDraw).value;
    WriteGrowsDbSize(before, key, Entry(resp.events, now + ttl), now);
  }
}
