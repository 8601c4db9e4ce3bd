/** The read-through cache facade (`CacheService` in cache_service.py): TTL policy, the
    never-raising `set`/`get`, `get_or_compute`, and the invalidation and maintenance commands. */
module Cache {
  import opened Results
  import opened Text
  import opened Glob
  import opened KeyCodec
  import opened Backend
  import opened Invalidation

  /** The per-category TTL table (seconds). It has no "default" entry. */
  const TtlSettings: map<string, int> := map[
    "player_features" := 900,
    "dashboard_metrics" := 600,
    "churn_predictions" := 1800,
    "player_timeline" := 3600,
    "aggregated_data" := 1800,
    "ml_models" := 7200,
    "churn_metrics_data" := 900,
    "risk_alerts_data" := 600,
    "segmentation_data" := 1800,
    "microtendencias_dashboard" := 300]

  /** The fallback of `ttl_settings.get(name, 300)`. */
  const FallbackTtl: int := 300

  /** Python truthiness of an optional integer: None and 0 are false. */
  predicate Truthy(ttl: Option<int>)
  {
    ttl.Some? && ttl.value != 0
  }

  /** `ttl_settings.get(name, 300)`: every configured TTL lies between 300 s and 2 h. */
  function TtlFor(name: string): (t: int)
    ensures name in TtlSettings ==> t == TtlSettings[name]
    ensures name !in TtlSettings ==> t == FallbackTtl
    ensures FallbackTtl <= t <= 7200
  {
    if name in TtlSettings then TtlSettings[name] else FallbackTtl
  }

  /** The TTL `set` passes to SETEX: a truthy `ttl`, else 300 seconds. */
  function SetTtl(ttl: Option<int>): (t: int)
    ensures Truthy(ttl) ==> t == ttl.value
    ensures !Truthy(ttl) ==> t == FallbackTtl
  {
    if Truthy(ttl) then ttl.value else FallbackTtl
  }

  /** SetTtl is `ttl or ttl_settings.get('default', 300)`: the table has no "default" entry, so
      a missing or zero TTL falls through to 300 seconds. */
  lemma SetTtlIsTableFallback(ttl: Option<int>)
    ensures "default" !in TtlSettings
    ensures SetTtl(ttl) == if Truthy(ttl) then ttl.value else TtlFor("default")
  {
  }

  /** The TTL get_or_compute stores with: `ttl or ttl_settings.get(cache_type, 300)`. */
  function ComputeTtl(ttl: Option<int>, cacheType: string): (t: int)
    ensures t != 0
    ensures Truthy(ttl) ==> t == ttl.value
    ensures !Truthy(ttl) && cacheType in TtlSettings ==> t == TtlSettings[cacheType]
    ensures !Truthy(ttl) && cacheType !in TtlSettings ==> t == FallbackTtl
  {
    if Truthy(ttl) then ttl.value else TtlFor(cacheType)
  }

  /** The TTL chosen by get_or_compute reaches SETEX unchanged: `set` never replaces it. */
  lemma ComputedTtlReachesStore(ttl: Option<int>, cacheType: string)
    ensures SetTtl(Some(ComputeTtl(ttl, cacheType))) == ComputeTtl(ttl, cacheType)
    ensures !Truthy(ttl) ==> SetTtl(Some(ComputeTtl(ttl, cacheType))) > 0
  {
  }

  /** What `get` returns against a working server: the unpickled value, or None when the key is
      absent or its bytes do not unpickle. A stored None reads the same as a miss. */
  function Lookup(data: map<string, Entry>, key: string): (v: Value)
    ensures key !in data ==> v == PyNone
    ensures key in data && data[key].blob == Garbage ==> v == PyNone
    ensures key in data && data[key].blob.Pickled? ==> v == data[key].blob.value
  {
    if key in data && data[key].blob.Pickled? then data[key].blob.value else PyNone
  }

  /** What `get` returns when its GET is the command at tick `tick`. */
  function Observed(faults: set<nat>, tick: nat, data: map<string, Entry>, key: string): (v: Value)
    ensures tick in faults ==> v == PyNone
    ensures tick !in faults ==> v == Lookup(data, key)
  {
    if tick in faults then PyNone else Lookup(data, key)
  }

  /** A value written by `set` is read back by `get` as long as nothing overwrote it. */
  lemma {:induction false} LookupAfterSet(data: map<string, Entry>, key: string, value: Value, ttl: int, other: string)
    ensures Lookup(data[key := Entry(Pickled(value), ttl)], key) == value
    ensures other != key ==> Lookup(data[key := Entry(Pickled(value), ttl)], other) == Lookup(data, other)
  {
  }

  /** A stored None reads the same as a miss (and as a failed GET), so get_or_compute computes
      again for a key holding None. */
  lemma StoredNoneReadsAsMiss(faults: set<nat>, tick: nat, data: map<string, Entry>, key: string, ttl: int)
    ensures Lookup(data[key := Entry(Pickled(PyNone), ttl)], key) == Lookup(data - {key}, key) == PyNone
    ensures tick in faults ==> Observed(faults, tick, data, key) == PyNone
  {
  }

  /** health_check's result: the status is decided only by whether a command raised. */
  datatype Health = Healthy(writeTest: bool, readTest: bool) | Unhealthy(error: Error)

  const HealthKey: string := "health_check_test"
  const HealthTtl: int := 60

  /** The dictionary health_check writes, stamped with the time `now`. */
  function HealthProbe(now: string): Value
  {
    Obj("{'timestamp': '" + now + "', 'test': True}")
  }

  /** What one invalidation step (KEYS pattern, then DEL of the matched keys when there are any)
      leaves behind: the store, how many keys it removed, the next tick, and whether one of its
      commands raised. */
  datatype Step = Step(data: map<string, Entry>, removed: nat, clock: nat, raised: bool)

  /** The step for `pattern` issued at tick `clock`: a fault in KEYS or in DEL leaves the store as
      it was; otherwise exactly the matching keys go. */
  function DeleteStep(faults: set<nat>, clock: nat, data: map<string, Entry>, pattern: string): (s: Step)
    ensures clock < s.clock <= clock + 2
    ensures s.raised <==> FaultIn(faults, clock, s.clock)
    ensures s.raised ==> s.data == data && s.removed == 0
    ensures !s.raised ==> s.data == data - KeysMatching(data, pattern) && s.removed == |KeysMatching(data, pattern)|
  {
    var doomed := KeysMatching(data, pattern);
    if clock in faults then Step(data, 0, clock + 1, true)
    else if doomed == {} then
      assert data - doomed == data;
      Step(data, 0, clock + 1, false)
    else if clock + 1 in faults then Step(data, 0, clock + 2, true)
    else Step(data - doomed, |doomed|, clock + 2, false)
  }

  /** invalidate_pattern over each of `patterns` in turn from tick `clock`, summing the counts:
      a pattern whose commands raise removes nothing and the next pattern still runs. */
  function InvalidateRun(faults: set<nat>, clock: nat, data: map<string, Entry>, patterns: seq<string>): Step
    decreases |patterns|
  {
    if patterns == [] then Step(data, 0, clock, false)
    else
      var a := InvalidateRun(faults, clock, data, patterns[..|patterns| - 1]);
      var d := DeleteStep(faults, a.clock, a.data, patterns[|patterns| - 1]);
      Step(d.data, a.removed + d.removed, d.clock, a.raised || d.raised)
  }

  /** The loop of clear_microtendencias_cache from tick `clock`: the same steps, except that the
      first one that raises ends the run; `removed` counts the keys deleted before that. */
  function ClearRun(faults: set<nat>, clock: nat, data: map<string, Entry>, patterns: seq<string>): Step
    decreases |patterns|
  {
    if patterns == [] then Step(data, 0, clock, false)
    else
      var a := ClearRun(faults, clock, data, patterns[..|patterns| - 1]);
      if a.raised then a
      else
        var d := DeleteStep(faults, a.clock, a.data, patterns[|patterns| - 1]);
        Step(d.data, a.removed + d.removed, d.clock, d.raised)
  }

  /** Each pattern costs one or two commands, and the run raised exactly when some command in
      its window faulted. */
  lemma {:induction false} InvalidateRunClock(faults: set<nat>, clock: nat, data: map<string, Entry>, patterns: seq<string>)
    ensures var s := InvalidateRun(faults, clock, data, patterns);
            && clock + |patterns| <= s.clock <= clock + 2 * |patterns|
            && (s.raised <==> FaultIn(faults, clock, s.clock))
    decreases |patterns|
  {
    if patterns != [] {
      var n := |patterns| - 1;
      var a := InvalidateRun(faults, clock, data, patterns[..n]);
      InvalidateRunClock(faults, clock, data, patterns[..n]);
      var d := DeleteStep(faults, a.clock, a.data, patterns[n]);
      FaultInSplit(faults, clock, a.clock, d.clock);
    }
  }

  /** The run only deletes, and only keys matching some pattern. */
  lemma {:induction false} InvalidateRunDeletes(faults: set<nat>, clock: nat, data: map<string, Entry>, patterns: seq<string>)
    ensures DeletedOnlyMatching(data, InvalidateRun(faults, clock, data, patterns).data, patterns)
    decreases |patterns|
  {
    if patterns != [] {
      var n := |patterns| - 1;
      var ps := patterns[..n];
      var a := InvalidateRun(faults, clock, data, ps);
      InvalidateRunDeletes(faults, clock, data, ps);
      var d := DeleteStep(faults, a.clock, a.data, patterns[n]);
      forall k | k in data && k !in d.data
        ensures MatchesSome(patterns, k)
      {
        if k in a.data {
          assert Match(patterns[n], k);
        } else {
          assert MatchesSome(ps, k);
        }
      }
    }
  }

  /** The run's count is the number of keys it deleted. */
  lemma {:induction false} InvalidateRunCounts(faults: set<nat>, clock: nat, data: map<string, Entry>, patterns: seq<string>)
    ensures var s := InvalidateRun(faults, clock, data, patterns);
            s.data.Keys <= data.Keys && s.removed == |data.Keys - s.data.Keys|
    decreases |patterns|
  {
    if patterns != [] {
      var n := |patterns| - 1;
      var a := InvalidateRun(faults, clock, data, patterns[..n]);
      InvalidateRunCounts(faults, clock, data, patterns[..n]);
      var d := DeleteStep(faults, a.clock, a.data, patterns[n]);
      if !d.raised {
        var doomed := KeysMatching(a.data, patterns[n]);
        assert d.data.Keys == a.data.Keys - doomed;
        GoneGrows(data.Keys, a.data.Keys, doomed);
      }
    }
  }

  /** Of the keys `all`, those outside `left` are gone; removing `doomed` from `left` makes
      exactly `doomed` gone in addition. */
  lemma GoneGrows(all: set<string>, left: set<string>, doomed: set<string>)
    requires left <= all && doomed <= left
    ensures |all - (left - doomed)| == |all - left| + |doomed|
  {
    assert all - (left - doomed) == (all - left) + doomed;
    assert (all - left) * doomed == {};
  }

  /** Without a fault the run removes exactly the keys matching any of the patterns. */
  lemma {:induction false} InvalidateRunExact(faults: set<nat>, clock: nat, data: map<string, Entry>, patterns: seq<string>)
    ensures var s := InvalidateRun(faults, clock, data, patterns);
            !s.raised ==> s.data == data - KeysMatchingAny(data, patterns)
    decreases |patterns|
  {
    var s := InvalidateRun(faults, clock, data, patterns);
    if patterns != [] && !s.raised {
      var n := |patterns| - 1;
      InvalidateRunExact(faults, clock, data, patterns[..n]);
      RemovedGrows(data, KeysMatchingAny(data, patterns[..n]), patterns, n);
      assert patterns[..n + 1] == patterns;
    }
  }

  /** The three facts about a whole invalidation run, together. */
  lemma InvalidateRunSpec(faults: set<nat>, clock: nat, data: map<string, Entry>, patterns: seq<string>)
    ensures var s := InvalidateRun(faults, clock, data, patterns);
            && clock + |patterns| <= s.clock <= clock + 2 * |patterns|
            && (s.raised <==> FaultIn(faults, clock, s.clock))
            && DeletedOnlyMatching(data, s.data, patterns)
            && s.removed == |data.Keys - s.data.Keys|
            && (!s.raised ==> s.data == data - KeysMatchingAny(data, patterns))
  {
    InvalidateRunClock(faults, clock, data, patterns);
    InvalidateRunDeletes(faults, clock, data, patterns);
    InvalidateRunCounts(faults, clock, data, patterns);
    InvalidateRunExact(faults, clock, data, patterns);
  }

  /** A key matching pattern `i` survives the run only if that pattern's own step raised: a
      failing pattern costs only its own deletions. */
  lemma SurvivorsFailedTheirPattern(faults: set<nat>, clock: nat, data: map<string, Entry>, patterns: seq<string>,
                                    i: nat, k: string)
    requires i < |patterns| && k in data && Match(patterns[i], k)
    requires var a := InvalidateRun(faults, clock, data, patterns[..i]);
             !DeleteStep(faults, a.clock, a.data, patterns[i]).raised
    ensures k !in InvalidateRun(faults, clock, data, patterns).data
  {
    assert patterns[..i + 1][..i] == patterns[..i];
    assert k !in InvalidateRun(faults, clock, data, patterns[..i + 1]).data;
    InvalidateRunShrinks(faults, clock, data, patterns, i + 1);
  }

  /** Later patterns only delete: the store after the whole run is part of the store after its
      first `j` patterns. */
  lemma {:induction false} InvalidateRunShrinks(faults: set<nat>, clock: nat, data: map<string, Entry>,
                                                patterns: seq<string>, j: nat)
    requires j <= |patterns|
    ensures InvalidateRun(faults, clock, data, patterns).data.Keys <= InvalidateRun(faults, clock, data, patterns[..j]).data.Keys
    decreases |patterns|
  {
    if j < |patterns| {
      var n := |patterns| - 1;
      InvalidateRunShrinks(faults, clock, data, patterns[..n], j);
      assert patterns[..n][..j] == patterns[..j];
    } else {
      assert patterns[..j] == patterns;
    }
  }

  /** Once a step of clear_microtendencias_cache raised, the run is over. */
  lemma {:induction false} ClearRunStops(faults: set<nat>, clock: nat, data: map<string, Entry>, patterns: seq<string>, j: nat)
    requires j <= |patterns| && ClearRun(faults, clock, data, patterns[..j]).raised
    ensures ClearRun(faults, clock, data, patterns) == ClearRun(faults, clock, data, patterns[..j])
    decreases |patterns|
  {
    if j < |patterns| {
      var n := |patterns| - 1;
      assert patterns[..n][..j] == patterns[..j];
      ClearRunStops(faults, clock, data, patterns[..n], j);
    } else {
      assert patterns[..j] == patterns;
    }
  }

  /** The run issues at least one and at most two commands per pattern it reaches, and raised
      exactly when one of them faulted. */
  lemma {:induction false} ClearRunClock(faults: set<nat>, clock: nat, data: map<string, Entry>, patterns: seq<string>)
    ensures var s := ClearRun(faults, clock, data, patterns);
            && (patterns != [] ==> clock < s.clock)
            && s.clock <= clock + 2 * |patterns|
            && (s.raised <==> FaultIn(faults, clock, s.clock))
    decreases |patterns|
  {
    if patterns != [] {
      var n := |patterns| - 1;
      var a := ClearRun(faults, clock, data, patterns[..n]);
      ClearRunClock(faults, clock, data, patterns[..n]);
      if !a.raised {
        var d := DeleteStep(faults, a.clock, a.data, patterns[n]);
        FaultInSplit(faults, clock, a.clock, d.clock);
      }
    }
  }

  /** Until its first fault, clear_microtendencias_cache's loop is the invalidation loop. */
  lemma {:induction false} ClearRunAgrees(faults: set<nat>, clock: nat, data: map<string, Entry>, patterns: seq<string>)
    ensures var s := ClearRun(faults, clock, data, patterns);
            !s.raised ==> s == InvalidateRun(faults, clock, data, patterns)
    decreases |patterns|
  {
    if patterns != [] {
      ClearRunAgrees(faults, clock, data, patterns[..|patterns| - 1]);
    }
  }

  /** The run only deletes, and only keys matching some pattern. */
  lemma {:induction false} ClearRunDeletes(faults: set<nat>, clock: nat, data: map<string, Entry>, patterns: seq<string>)
    ensures DeletedOnlyMatching(data, ClearRun(faults, clock, data, patterns).data, patterns)
    decreases |patterns|
  {
    if patterns != [] {
      var n := |patterns| - 1;
      var ps := patterns[..n];
      var a := ClearRun(faults, clock, data, ps);
      ClearRunDeletes(faults, clock, data, ps);
      var s := ClearRun(faults, clock, data, patterns);
      forall k | k in data && k !in s.data
        ensures MatchesSome(patterns, k)
      {
        if k in a.data {
          assert Match(patterns[n], k);
        } else {
          assert MatchesSome(ps, k);
        }
      }
    }
  }

  /** After a fault, the patterns before the failing one have been fully processed, and no
      later one. */
  lemma {:induction false} ClearRunPartial(faults: set<nat>, clock: nat, data: map<string, Entry>, patterns: seq<string>)
    ensures var s := ClearRun(faults, clock, data, patterns);
            s.raised ==> exists i :: 0 <= i < |patterns| && s.data == data - KeysMatchingAny(data, patterns[..i])
    decreases |patterns|
  {
    var s := ClearRun(faults, clock, data, patterns);
    if patterns != [] && s.raised {
      var n := |patterns| - 1;
      var ps := patterns[..n];
      var a := ClearRun(faults, clock, data, ps);
      if a.raised {
        ClearRunPartial(faults, clock, data, ps);
        var i :| 0 <= i < |ps| && a.data == data - KeysMatchingAny(data, ps[..i]);
        assert ps[..i] == patterns[..i];
      } else {
        ClearRunAgrees(faults, clock, data, ps);
        InvalidateRunExact(faults, clock, data, ps);
        assert s.data == data - KeysMatchingAny(data, patterns[..n]);
      }
    }
  }

  /** The four facts about a run of clear_microtendencias_cache's loop, together. */
  lemma ClearRunSpec(faults: set<nat>, clock: nat, data: map<string, Entry>, patterns: seq<string>)
    ensures var s := ClearRun(faults, clock, data, patterns);
            && (patterns != [] ==> clock < s.clock)
            && s.clock <= clock + 2 * |patterns|
            && (s.raised <==> FaultIn(faults, clock, s.clock))
            && DeletedOnlyMatching(data, s.data, patterns)
            && (!s.raised ==> s == InvalidateRun(faults, clock, data, patterns))
            && (s.raised ==> exists i :: 0 <= i < |patterns| && s.data == data - KeysMatchingAny(data, patterns[..i]))
  {
    ClearRunClock(faults, clock, data, patterns);
    ClearRunAgrees(faults, clock, data, patterns);
    ClearRunDeletes(faults, clock, data, patterns);
    ClearRunPartial(faults, clock, data, patterns);
  }

  class CacheService {
    const redis: Redis
    /** The hash of the canonical arguments (MD5 of their JSON text, first 8 hex digits). */
    const digest: Digest

    constructor (redis: Redis, digest: Digest)
      ensures this.redis == redis && this.digest == digest
    {
      this.redis := redis;
      this.digest := digest;
    }

    /** `_generate_cache_key`: the prefix, a colon and eight lowercase hex digits. */
    function GenerateCacheKey(prefix: string, kwargs: seq<Param>): (key: string)
      ensures |key| == |prefix| + 9 && key[..|prefix|] == prefix && key[|prefix|] == ':'
      ensures IsHex8(key[|prefix| + 1..])
    {
      CacheKey(prefix, kwargs, digest)
    }

    /** `set`: pickle, then SETEX with the fallback TTL; any failure yields false, never an error. */
    method Set(key: string, value: Value, ttl: Option<int>) returns (ok: bool)
      modifies redis
      ensures ok <==> !value.Unpicklable? && old(redis.clock) !in redis.faults && SetTtl(ttl) > 0
      ensures ok ==> redis.data == old(redis.data)[key := Entry(Pickled(value), SetTtl(ttl))]
      ensures !ok ==> redis.data == old(redis.data)
      ensures redis.clock == old(redis.clock) + (if value.Unpicklable? then 0 else 1)
    {
      match Pickle(value)
      case Raised(_) =>
        ok := false;
      case Ok(blob) =>
        var r := redis.Setex(key, SetTtl(ttl), blob);
        ok := r.Ok? && r.value;
    }

    /** `get`: None on absence, on a server error and on bytes that do not unpickle. */
    method Get(key: string) returns (v: Value)
      modifies redis
      ensures redis.clock == old(redis.clock) + 1 && redis.data == old(redis.data)
      ensures v == Observed(redis.faults, old(redis.clock), old(redis.data), key)
    {
      var r := redis.Get(key);
      match r
      case Raised(_) =>
        v := PyNone;
      case Ok(None) =>
        v := PyNone;
      case Ok(Some(blob)) =>
        match Unpickle(blob)
        case Raised(_) =>
          v := PyNone;
        case Ok(value) =>
          v := value;
    }

    /** A `set` followed by a `get` of the same key returns the value written. */
    method SetThenGet(key: string, value: Value, ttl: Option<int>) returns (ok: bool, v: Value)
      modifies redis
      ensures ok <==> !value.Unpicklable? && old(redis.clock) !in redis.faults && SetTtl(ttl) > 0
      ensures ok && old(redis.clock) + 1 !in redis.faults ==> v == value
      ensures ok ==> redis.data == old(redis.data)[key := Entry(Pickled(value), SetTtl(ttl))]
      ensures !ok ==> redis.data == old(redis.data)
      ensures redis.clock == old(redis.clock) + (if value.Unpicklable? then 1 else 2)
    {
      ok := Set(key, value, ttl);
      v := Get(key);
    }

    /** `get_or_compute`: a keyword argument named `prefix` collides with the first parameter of
        `_generate_cache_key` and raises TypeError before any command. Otherwise a non-None cached
        value is returned without computing; on a miss the value is computed once, an error
        propagates with nothing stored, and a result is stored (when `set` manages to) under the
        derived key and returned either way. */
    method GetOrCompute(cacheType: string, compute: seq<Param> -> Outcome<Value>, ttl: Option<int>,
                        kwargs: seq<Param>)
      returns (r: Outcome<Value>, computed: bool)
      modifies redis
      ensures "prefix" in Names(kwargs) ==>
                r == Raised(TypeError("prefix")) && !computed && redis.data == old(redis.data)
      ensures var key := CacheKey(cacheType, kwargs, digest);
              var cached := Observed(redis.faults, old(redis.clock), old(redis.data), key);
              "prefix" !in Names(kwargs) ==>
              && (cached != PyNone ==> !computed && r == Ok(cached) && redis.data == old(redis.data))
              && (cached == PyNone ==> computed && r == compute(kwargs))
              && (cached == PyNone && r.Raised? ==> redis.data == old(redis.data))
      ensures var key := CacheKey(cacheType, kwargs, digest);
              var stored := computed && r.Ok? && !r.value.Unpicklable? && old(redis.clock) + 1 !in redis.faults
                            && ComputeTtl(ttl, cacheType) > 0;
              "prefix" !in Names(kwargs) ==>
              && (stored ==> redis.data == old(redis.data)[key := Entry(Pickled(r.value), ComputeTtl(ttl, cacheType))])
              && (!stored ==> redis.data == old(redis.data))
      ensures redis.clock == old(redis.clock) + (if "prefix" in Names(kwargs) then 0
                                                 else if computed && r.Ok? && !r.value.Unpicklable? then 2 else 1)
    {
      if "prefix" in Names(kwargs) {
        return Raised(TypeError("prefix")), false;
      }
      var key := GenerateCacheKey(cacheType, kwargs);
      var cached := Get(key);
      if cached != PyNone {
        return Ok(cached), false;
      }
      computed := true;
      r := compute(kwargs);
      if r.Ok? {
        var cacheTtl := ComputeTtl(ttl, cacheType);
        ComputedTtlReachesStore(ttl, cacheType);
        var _ := Set(key, r.value, Some(cacheTtl));
      }
    }

    /** KEYS then, when something matched, DEL: the shared step of invalidate_pattern and
        clear_microtendencias_cache, with server errors still raised. */
    method DeleteMatching(pattern: string) returns (r: Outcome<nat>)
      modifies redis
      ensures var doomed := KeysMatching(old(redis.data), pattern);
              redis.clock == old(redis.clock) + (if old(redis.clock) in redis.faults || doomed == {} then 1 else 2)
      ensures r.Ok? <==> !FaultIn(redis.faults, old(redis.clock), redis.clock)
      ensures r.Ok? ==> redis.data == old(redis.data) - KeysMatching(old(redis.data), pattern)
                        && r.value == |KeysMatching(old(redis.data), pattern)|
      ensures r.Raised? ==> redis.data == old(redis.data)
      ensures var s := DeleteStep(redis.faults, old(redis.clock), old(redis.data), pattern);
              redis.data == s.data && redis.clock == s.clock && r.Raised? == s.raised
    {
      var keys := redis.Keys(pattern);
      if keys.Raised? {
        return Raised(keys.error);
      }
      if keys.value == {} {
        assert redis.data == old(redis.data) - {};
        return Ok(0);
      }
      assert keys.value * old(redis.data).Keys == keys.value;
      var deleted := redis.Delete(keys.value);
      if deleted.Raised? {
        return Raised(deleted.error);
      }
      r := Ok(deleted.value);
    }

    /** `invalidate_pattern`: removes exactly the keys matching the glob and returns their count;
        0 when nothing matches or on any server error, never raising. */
    method InvalidatePattern(pattern: string) returns (n: nat)
      modifies redis
      ensures old(redis.clock) < redis.clock <= old(redis.clock) + 2
      ensures !FaultIn(redis.faults, old(redis.clock), redis.clock) ==>
                redis.data == old(redis.data) - KeysMatching(old(redis.data), pattern)
                && n == |KeysMatching(old(redis.data), pattern)|
      ensures FaultIn(redis.faults, old(redis.clock), redis.clock) ==> redis.data == old(redis.data) && n == 0
      ensures var s := DeleteStep(redis.faults, old(redis.clock), old(redis.data), pattern);
              redis.data == s.data && n == s.removed && redis.clock == s.clock
    {
      var r := DeleteMatching(pattern);
      n := if r.Ok? then r.value else 0;
    }

    /** Runs invalidate_pattern over `patterns`, summing the counts: the loop of
        invalidate_workspace and invalidate_gateway_cache. A failing pattern contributes 0 and
        the loop goes on. */
    method InvalidateEach(patterns: seq<string>) returns (total: nat)
      modifies redis
      ensures var s := InvalidateRun(redis.faults, old(redis.clock), old(redis.data), patterns);
              redis.data == s.data && total == s.removed && redis.clock == s.clock
      ensures old(redis.clock) + |patterns| <= redis.clock <= old(redis.clock) + 2 * |patterns|
      ensures DeletedOnlyMatching(old(redis.data), redis.data, patterns)
      ensures total == |old(redis.data).Keys - redis.data.Keys|
      ensures !FaultIn(redis.faults, old(redis.clock), redis.clock) ==>
                redis.data == old(redis.data) - KeysMatchingAny(old(redis.data), patterns)
    {
      ghost var data0, c0 := redis.data, redis.clock;
      total := 0;
      for i := 0 to |patterns|
        invariant var s := InvalidateRun(redis.faults, c0, data0, patterns[..i]);
                  redis.data == s.data && total == s.removed && redis.clock == s.clock
      {
        assert patterns[..i + 1][..i] == patterns[..i];
        var n := InvalidatePattern(patterns[i]);
        total := total + n;
      }
      assert patterns[..|patterns|] == patterns;
      InvalidateRunSpec(redis.faults, c0, data0, patterns);
    }

    /** `invalidate_workspace`: the sum over the seven workspace patterns. Keys produced by
        `_generate_cache_key` (for categories not naming "workspace_id") always survive it. */
    method InvalidateWorkspace(workspaceId: int) returns (total: nat)
      modifies redis
      ensures var s := InvalidateRun(redis.faults, old(redis.clock), old(redis.data), WorkspacePatterns(workspaceId));
              redis.data == s.data && total == s.removed && redis.clock == s.clock
      ensures old(redis.clock) + 7 <= redis.clock <= old(redis.clock) + 14
      ensures DeletedOnlyMatching(old(redis.data), redis.data, WorkspacePatterns(workspaceId))
      ensures total == |old(redis.data).Keys - redis.data.Keys|
      ensures !FaultIn(redis.faults, old(redis.clock), redis.clock) ==>
                redis.data == old(redis.data) - KeysMatchingAny(old(redis.data), WorkspacePatterns(workspaceId))
      ensures forall prefix, kwargs :: !Occurs(WorkspaceMarker, prefix) && CacheKey(prefix, kwargs, digest) in old(redis.data)
                ==> CacheKey(prefix, kwargs, digest) in redis.data
    {
      total := InvalidateEach(WorkspacePatterns(workspaceId));
      forall prefix, kwargs | !Occurs(WorkspaceMarker, prefix) && CacheKey(prefix, kwargs, digest) in old(redis.data)
        ensures CacheKey(prefix, kwargs, digest) in redis.data
      {
        DerivedKeysEscapeWorkspacePatterns(workspaceId, prefix, kwargs, digest);
      }
    }

    /** `invalidate_gateway_cache`: the sum over the three gateway patterns of the mode chosen by
        `gateway_id is not None`. Keys produced by `_generate_cache_key` always survive it. */
    method InvalidateGatewayCache(workspaceId: int, gatewayId: Option<int>) returns (total: nat)
      modifies redis
      ensures var s := InvalidateRun(redis.faults, old(redis.clock), old(redis.data), GatewayPatterns(workspaceId, gatewayId));
              redis.data == s.data && total == s.removed && redis.clock == s.clock
      ensures old(redis.clock) + 3 <= redis.clock <= old(redis.clock) + 6
      ensures DeletedOnlyMatching(old(redis.data), redis.data, GatewayPatterns(workspaceId, gatewayId))
      ensures total == |old(redis.data).Keys - redis.data.Keys|
      ensures !FaultIn(redis.faults, old(redis.clock), redis.clock) ==>
                redis.data == old(redis.data) - KeysMatchingAny(old(redis.data), GatewayPatterns(workspaceId, gatewayId))
      ensures forall prefix, kwargs :: !Occurs(WorkspaceMarker, prefix) && CacheKey(prefix, kwargs, digest) in old(redis.data)
                ==> CacheKey(prefix, kwargs, digest) in redis.data
    {
      total := InvalidateEach(GatewayPatterns(workspaceId, gatewayId));
      forall prefix, kwargs | !Occurs(WorkspaceMarker, prefix) && CacheKey(prefix, kwargs, digest) in old(redis.data)
        ensures CacheKey(prefix, kwargs, digest) in redis.data
      {
        DerivedKeysEscapeGatewayPatterns(workspaceId, gatewayId, prefix, kwargs, digest);
      }
    }

    /** The loop of clear_microtendencias_cache inside its error handler: the first server
        error ends the loop and makes the count 0. */
    method ClearEach(patterns: seq<string>) returns (total: nat)
      modifies redis
      ensures var s := ClearRun(redis.faults, old(redis.clock), old(redis.data), patterns);
              redis.data == s.data && redis.clock == s.clock && total == (if s.raised then 0 else s.removed)
    {
      ghost var data0, c0 := redis.data, redis.clock;
      total := 0;
      for i := 0 to |patterns|
        invariant var s := ClearRun(redis.faults, c0, data0, patterns[..i]);
                  !s.raised && redis.data == s.data && total == s.removed && redis.clock == s.clock
      {
        assert patterns[..i + 1][..i] == patterns[..i];
        var r := DeleteMatching(patterns[i]);
        if r.Raised? {
          ClearRunStops(redis.faults, c0, data0, patterns, i + 1);
          return 0;
        }
        total := total + r.value;
      }
      assert patterns[..|patterns|] == patterns;
    }

    /** `clear_microtendencias_cache`: the same four global patterns whatever `workspaceId` is
        (it only changes a log line). The first server error makes the whole call return 0,
        while the deletions already made stay made. */
    method ClearMicrotendenciasCache(workspaceId: Option<int>) returns (total: nat)
      modifies redis
      ensures var s := ClearRun(redis.faults, old(redis.clock), old(redis.data), MicrotendenciasPatterns);
              redis.data == s.data && redis.clock == s.clock && total == (if s.raised then 0 else s.removed)
      ensures old(redis.clock) < redis.clock <= old(redis.clock) + 8
      ensures DeletedOnlyMatching(old(redis.data), redis.data, MicrotendenciasPatterns)
      ensures FaultIn(redis.faults, old(redis.clock), redis.clock) ==>
                total == 0
                && exists i :: 0 <= i < |MicrotendenciasPatterns| &&
                     redis.data == old(redis.data) - KeysMatchingAny(old(redis.data), MicrotendenciasPatterns[..i])
      ensures !FaultIn(redis.faults, old(redis.clock), redis.clock) ==>
                redis.data == old(redis.data) - KeysMatchingAny(old(redis.data), MicrotendenciasPatterns)
                && total == |KeysMatchingAny(old(redis.data), MicrotendenciasPatterns)|
    {
      ghost var data0, c0 := redis.data, redis.clock;
      total := ClearEach(MicrotendenciasPatterns);
      ghost var s := ClearRun(redis.faults, c0, data0, MicrotendenciasPatterns);
      assert |MicrotendenciasPatterns| == 4;
      ClearRunSpec(redis.faults, c0, data0, MicrotendenciasPatterns);
      assert !s.raised ==> s.data == data0 - KeysMatchingAny(data0, MicrotendenciasPatterns)
                           && s.removed == |data0.Keys - s.data.Keys| by {
        InvalidateRunSpec(redis.faults, c0, data0, MicrotendenciasPatterns);
      }
    }

    /** `clear_all_cache`: FLUSHDB; 1 when it succeeded and the store is empty, else 0. */
    method ClearAllCache() returns (n: nat)
      modifies redis
      ensures redis.clock == old(redis.clock) + 1
      ensures n == 1 <==> old(redis.clock) !in redis.faults
      ensures n == 1 ==> redis.data == map[]
      ensures n != 1 ==> n == 0 && redis.data == old(redis.data)
    {
      var r := redis.Flushdb();
      n := if r.Ok? && r.value then 1 else 0;
    }

    /** `health_check`: SETEX the probe for 60 s, GET it back, DEL it. Healthy exactly when none
        of the three commands raised; the read test compares what came back with the probe. */
    method HealthCheck(now: string) returns (h: Health)
      modifies redis
      ensures var c := old(redis.clock);
              h.Healthy? <==> c !in redis.faults && c + 1 !in redis.faults && c + 2 !in redis.faults
      ensures h.Healthy? ==> h.writeTest && h.readTest && redis.data == old(redis.data) - {HealthKey}
      ensures h.Unhealthy? ==> h.error == ConnectionError
      ensures old(redis.clock) in redis.faults ==> redis.data == old(redis.data)
      ensures var c := old(redis.clock);
              c !in redis.faults && (c + 1 in redis.faults || c + 2 in redis.faults) ==>
                redis.data == old(redis.data)[HealthKey := Entry(Pickled(HealthProbe(now)), HealthTtl)]
      ensures var c := old(redis.clock);
              redis.clock == c + (if c in redis.faults then 1 else if c + 1 in redis.faults then 2 else 3)
    {
      var probe := HealthProbe(now);
      var setResult := redis.Setex(HealthKey, HealthTtl, Pickled(probe));
      if setResult.Raised? {
        return Unhealthy(setResult.error);
      }
      var getResult := redis.Get(HealthKey);
      if getResult.Raised? {
        return Unhealthy(getResult.error);
      }
      var retrieved := PyNone;
      if getResult.value.Some? {
        var loaded := Unpickle(getResult.value.value);
        if loaded.Raised? {
          return Unhealthy(UnpicklingError);
        }
        retrieved := loaded.value;
      }
      var deleted := redis.Delete({HealthKey});
      if deleted.Raised? {
        return Unhealthy(deleted.error);
      }
      h := Healthy(true, retrieved == probe);
    }
  }

  /** One more pattern removes the keys it matches among those that survived the earlier ones. */
  lemma RemovedGrows(data0: map<string, Entry>, removed: set<string>, patterns: seq<string>, i: nat)
    requires i < |patterns|
    ensures var doomed := KeysMatching(data0 - removed, patterns[i]);
            && (forall k :: k in removed + doomed ==> (MatchesSome(patterns[..i], k) ==> MatchesSome(patterns[..i + 1], k)))
            && (forall k :: k in doomed ==> MatchesSome(patterns[..i + 1], k))
            && (removed == KeysMatchingAny(data0, patterns[..i]) ==>
                  removed + doomed == KeysMatchingAny(data0, patterns[..i + 1]))
            && (data0 - removed) - doomed == data0 - (removed + doomed)
            && removed !! doomed
  {
    assert patterns[..i + 1] == patterns[..i] + [patterns[i]];
    forall k
      ensures MatchesSome(patterns[..i + 1], k) <==> MatchesSome(patterns[..i], k) || Match(patterns[i], k)
    {
      MatchesSomeExtend(patterns[..i], patterns[i], k);
    }
  }
}
