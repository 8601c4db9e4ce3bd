/** `batch_cache_player_timelines`: look every distinct player's timeline up in the cache, fetch
    all the misses from the data source in one call, cache what came back, and merge. */
module Batch {
  import opened Results
  import opened KeyCodec
  import opened Backend
  import opened Cache

  /** A timeline together with the player it belongs to, as the data source returns them. */
  type Item = (string, Value)

  /** Item ids are pairwise distinct, as in the dictionary the data source returns. */
  predicate DistinctIds(items: seq<Item>)
  {
    forall i, j :: 0 <= i < j < |items| ==> items[i].0 != items[j].0
  }

  predicate NoDuplicates(s: seq<string>)
  {
    forall i, j :: 0 <= i < j < |s| ==> s[i] != s[j]
  }

  /** `a` is `b` with some elements left out, the rest kept in order. */
  ghost predicate Subsequence(a: seq<string>, b: seq<string>)
    decreases |b|
  {
    a == [] ||
    (b != [] &&
     ((a[|a| - 1] == b[|b| - 1] && Subsequence(a[..|a| - 1], b[..|b| - 1])) || Subsequence(a, b[..|b| - 1])))
  }

  const TimelineCategory: string := "player_timeline"

  /** `ttl_settings['player_timeline']`. */
  const TimelineTtl: int := 3600

  /** The timeline TTL is the table's entry for the timeline category. */
  lemma TimelineTtlFromTable()
    ensures TimelineCategory in TtlSettings && TimelineTtl == TtlFor(TimelineCategory)
  {
  }

  /** The cache key of one player's timeline. */
  function TimelineKey(workspaceId: int, playerId: string, digest: Digest): string
  {
    CacheKey(TimelineCategory, [("workspace_id", Int(workspaceId)), ("player_id", Str(playerId))], digest)
  }

  /** The `cache_keys` dictionary: every requested id with the key of its timeline. */
  function CacheKeys(workspaceId: int, playerIds: seq<string>, digest: Digest): (m: map<string, string>)
    ensures forall id :: id in m <==> id in playerIds
    ensures forall id :: id in m ==> m[id] == TimelineKey(workspaceId, id, digest)
  {
    map id | id in playerIds :: TimelineKey(workspaceId, id, digest)
  }

  /** The keys of the `cache_keys` dictionary, in insertion order: each id at its first occurrence. */
  function Dedup(ids: seq<string>): (d: seq<string>)
    ensures |d| <= |ids|
    decreases |ids|
  {
    if ids == [] then []
    else
      var d := Dedup(ids[..|ids| - 1]);
      if ids[|ids| - 1] in d then d else d + [ids[|ids| - 1]]
  }

  /** The dictionary holds every requested id and nothing else. */
  lemma {:induction false} DedupMembers(ids: seq<string>)
    ensures forall x :: x in Dedup(ids) <==> x in ids
    decreases |ids|
  {
    if ids != [] {
      var n := |ids| - 1;
      DedupMembers(ids[..n]);
      assert ids == ids[..n] + [ids[n]];
    }
  }

  /** Each id appears once, in the order of its first request. */
  lemma {:induction false} DedupSpec(ids: seq<string>)
    ensures NoDuplicates(Dedup(ids))
    ensures Subsequence(Dedup(ids), ids)
    decreases |ids|
  {
    if ids != [] {
      var n := |ids| - 1;
      DedupSpec(ids[..n]);
      DedupMembers(ids[..n]);
      var d := Dedup(ids[..n]);
      assert ids == ids[..n] + [ids[n]];
      assert ids[..n] == ids[..|ids| - 1];
      if ids[n] !in d {
        assert (d + [ids[n]])[..|d|] == d;
      }
    }
  }

  /** A list without repetitions is its own set of dictionary keys. */
  lemma {:induction false} DedupOfDistinct(ids: seq<string>)
    requires NoDuplicates(ids)
    ensures Dedup(ids) == ids
    decreases |ids|
  {
    if ids != [] {
      var n := |ids| - 1;
      DedupOfDistinct(ids[..n]);
      assert ids == ids[..n] + [ids[n]];
    }
  }

  /** A list without repetitions has as many distinct elements as entries. */
  lemma {:induction false} DistinctCard(s: seq<string>)
    requires NoDuplicates(s)
    ensures |set x | x in s| == |s|
    decreases |s|
  {
    if s != [] {
      var n := |s| - 1;
      DistinctCard(s[..n]);
      assert (set x | x in s) == (set x | x in s[..n]) + {s[n]};
      assert s[n] !in (set x | x in s[..n]);
    }
  }

  /** What the lookup of the j-th distinct id returned: `get` at tick `start + j` on an unchanged store. */
  function Observations(faults: set<nat>, start: nat, data: map<string, Entry>, workspaceId: int,
                        ids: seq<string>, digest: Digest): (obs: seq<Value>)
    ensures |obs| == |ids|
  {
    seq(|ids|, j requires 0 <= j < |ids| => Observed(faults, start + j, data, TimelineKey(workspaceId, ids[j], digest)))
  }

  /** `cached_results`: each id whose lookup returned something other than None. */
  function Hits(ids: seq<string>, obs: seq<Value>): map<string, Value>
    requires |ids| == |obs|
    decreases |ids|
  {
    if ids == [] then map[]
    else
      var n := |ids| - 1;
      var m := Hits(ids[..n], obs[..n]);
      if obs[n] != PyNone then m[ids[n] := obs[n]] else m
  }

  /** `missing_player_ids`: each id whose lookup returned None, in lookup order. */
  function Misses(ids: seq<string>, obs: seq<Value>): seq<string>
    requires |ids| == |obs|
    decreases |ids|
  {
    if ids == [] then []
    else
      var n := |ids| - 1;
      var m := Misses(ids[..n], obs[..n]);
      if obs[n] == PyNone then m + [ids[n]] else m
  }

  /** One more lookup extends the hits or the misses by the id just read. */
  lemma HitsMissesStep(ids: seq<string>, obs: seq<Value>, j: nat)
    requires |ids| == |obs| && j < |ids|
    ensures var hits, misses := Hits(ids[..j], obs[..j]), Misses(ids[..j], obs[..j]);
            && Hits(ids[..j + 1], obs[..j + 1]) == (if obs[j] != PyNone then hits[ids[j] := obs[j]] else hits)
            && Misses(ids[..j + 1], obs[..j + 1]) == (if obs[j] == PyNone then misses + [ids[j]] else misses)
  {
    assert ids[..j + 1][..j] == ids[..j] && obs[..j + 1][..j] == obs[..j];
  }

  /** Every hit is a requested id read as something other than None. */
  lemma {:induction false} HitsAreHits(ids: seq<string>, obs: seq<Value>)
    requires |ids| == |obs|
    ensures forall x :: x in Hits(ids, obs) ==> x in ids && Hits(ids, obs)[x] != PyNone
    decreases |ids|
  {
    if ids != [] {
      var n := |ids| - 1;
      HitsAreHits(ids[..n], obs[..n]);
      assert forall x :: x in ids[..n] ==> x in ids;
    }
  }

  /** For distinct ids, an id read as a value is a hit holding that value, one read as None is not. */
  lemma {:induction false} HitsComplete(ids: seq<string>, obs: seq<Value>)
    requires |ids| == |obs| && NoDuplicates(ids)
    ensures forall j :: 0 <= j < |ids| ==>
              (obs[j] != PyNone ==> ids[j] in Hits(ids, obs) && Hits(ids, obs)[ids[j]] == obs[j])
              && (obs[j] == PyNone ==> ids[j] !in Hits(ids, obs))
    decreases |ids|
  {
    if ids != [] {
      var n := |ids| - 1;
      var pre, preObs := ids[..n], obs[..n];
      HitsComplete(pre, preObs);
      HitsAreHits(pre, preObs);
      forall j | 0 <= j < |ids|
        ensures (obs[j] != PyNone ==> ids[j] in Hits(ids, obs) && Hits(ids, obs)[ids[j]] == obs[j])
                && (obs[j] == PyNone ==> ids[j] !in Hits(ids, obs))
      {
        if j < n {
          assert pre[j] == ids[j] && preObs[j] == obs[j] && ids[j] != ids[n];
        }
      }
    }
  }

  /** Every miss is a requested id. */
  lemma {:induction false} MissesAreRequested(ids: seq<string>, obs: seq<Value>)
    requires |ids| == |obs|
    ensures forall x :: x in Misses(ids, obs) ==> x in ids
    decreases |ids|
  {
    if ids != [] {
      var n := |ids| - 1;
      MissesAreRequested(ids[..n], obs[..n]);
      assert forall x :: x in ids[..n] ==> x in ids;
    }
  }

  /** For distinct ids, exactly the ids read as None are misses. */
  lemma {:induction false} MissesComplete(ids: seq<string>, obs: seq<Value>)
    requires |ids| == |obs| && NoDuplicates(ids)
    ensures forall j :: 0 <= j < |ids| ==> (ids[j] in Misses(ids, obs) <==> obs[j] == PyNone)
    decreases |ids|
  {
    if ids != [] {
      var n := |ids| - 1;
      var pre, preObs := ids[..n], obs[..n];
      MissesComplete(pre, preObs);
      MissesAreRequested(pre, preObs);
      forall j | 0 <= j < |ids|
        ensures ids[j] in Misses(ids, obs) <==> obs[j] == PyNone
      {
        if j < n {
          assert pre[j] == ids[j] && preObs[j] == obs[j] && ids[j] != ids[n];
        } else {
          assert ids[n] !in pre;
        }
      }
    }
  }

  /** The misses keep the lookup order and repeat nothing. */
  lemma {:induction false} MissesInOrder(ids: seq<string>, obs: seq<Value>)
    requires |ids| == |obs| && NoDuplicates(ids)
    ensures NoDuplicates(Misses(ids, obs))
    ensures Subsequence(Misses(ids, obs), ids)
    decreases |ids|
  {
    if ids != [] {
      var n := |ids| - 1;
      MissesInOrder(ids[..n], obs[..n]);
      MissesAreRequested(ids[..n], obs[..n]);
      assert ids[n] !in ids[..n];
      var m := Misses(ids[..n], obs[..n]);
      if obs[n] == PyNone {
        assert (m + [ids[n]])[..|m|] == m;
      }
    }
  }

  /** `{player_id: timeline_data for ...}` built from the returned items. */
  function ItemsMap(items: seq<Item>): map<string, Value>
    decreases |items|
  {
    if items == [] then map[]
    else ItemsMap(items[..|items| - 1])[items[|items| - 1].0 := items[|items| - 1].1]
  }

  /** The map holds exactly the returned ids. */
  lemma {:induction false} ItemsMapDomain(items: seq<Item>)
    ensures forall x :: x in ItemsMap(items) <==> exists j :: 0 <= j < |items| && items[j].0 == x
    decreases |items|
  {
    if items != [] {
      var n := |items| - 1;
      var prefix := items[..n];
      ItemsMapDomain(prefix);
      forall x | x in ItemsMap(items)
        ensures exists j :: 0 <= j < |items| && items[j].0 == x
      {
        if x != items[n].0 {
          assert x in ItemsMap(prefix);
          var j :| 0 <= j < n && prefix[j].0 == x;
          assert items[j].0 == x;
        }
      }
      forall x | exists j :: 0 <= j < |items| && items[j].0 == x
        ensures x in ItemsMap(items)
      {
        var j :| 0 <= j < |items| && items[j].0 == x;
        if j < n {
          assert prefix[j].0 == x;
        }
      }
    }
  }

  /** With distinct ids, each returned id maps to its own timeline. */
  lemma {:induction false} ItemsMapValues(items: seq<Item>)
    requires DistinctIds(items)
    ensures forall j :: 0 <= j < |items| ==> items[j].0 in ItemsMap(items) && ItemsMap(items)[items[j].0] == items[j].1
    decreases |items|
  {
    if items != [] {
      var n := |items| - 1;
      var prefix := items[..n];
      ItemsMapValues(prefix);
      forall j | 0 <= j < n
        ensures items[j].0 in ItemsMap(items) && ItemsMap(items)[items[j].0] == items[j].1
      {
        assert prefix[j] == items[j] && items[j].0 != items[n].0;
      }
    }
  }

  /** `{**cached_results, **missing_data}`: the fetched timelines win over cached ones. */
  lemma MergeSpec(hits: map<string, Value>, items: seq<Item>)
    requires DistinctIds(items)
    ensures forall j :: 0 <= j < |items| ==>
              items[j].0 in hits + ItemsMap(items) && (hits + ItemsMap(items))[items[j].0] == items[j].1
    ensures forall x :: x in hits + ItemsMap(items) <==>
              x in hits || exists j :: 0 <= j < |items| && items[j].0 == x
    ensures forall x :: x in hits && x !in ItemsMap(items) ==> (hits + ItemsMap(items))[x] == hits[x]
  {
    ItemsMapDomain(items);
    ItemsMapValues(items);
  }

  /** The index of the first returned item whose id was not requested (`|items|` if none):
      `cache_keys[player_id]` raises KeyError there. */
  function FirstUnrequested(items: seq<Item>, requested: seq<string>): (j: nat)
    ensures j <= |items|
    ensures forall i :: 0 <= i < j ==> items[i].0 in requested
    ensures j < |items| ==> items[j].0 !in requested
    decreases |items|
  {
    if items == [] then 0
    else if items[0].0 !in requested then 0
    else 1 + FirstUnrequested(items[1..], requested)
  }

  /** The store and the tick after the second loop: the items before the first unrequested one
      written in order. */
  function StoredUntilUnrequested(faults: set<nat>, tick: nat, data: map<string, Entry>, workspaceId: int,
                                  items: seq<Item>, requested: seq<string>, digest: Digest): (map<string, Entry>, nat)
  {
    WriteAll(faults, tick, data, workspaceId, items[..FirstUnrequested(items, requested)], digest)
  }

  /** With distinct returned ids, the second loop writes at most one timeline per requested
      player before it stops, so it issues at most that many `set` commands. */
  lemma StoredWithinRequested(faults: set<nat>, tick: nat, data: map<string, Entry>, workspaceId: int,
                              items: seq<Item>, requested: seq<string>, digest: Digest)
    requires DistinctIds(items)
    ensures FirstUnrequested(items, requested) <= |Dedup(requested)|
    ensures var out := StoredUntilUnrequested(faults, tick, data, workspaceId, items, requested, digest);
            tick <= out.1 <= tick + |Dedup(requested)|
  {
    var stop := FirstUnrequested(items, requested);
    var written := seq(stop, i requires 0 <= i < stop => items[i].0);
    var d := Dedup(requested);
    assert NoDuplicates(written) && forall x :: x in written ==> x in d by {
      DedupMembers(requested);
    }
    assert NoDuplicates(d) by {
      DedupSpec(requested);
    }
    DistinctShorter(written, d);
  }

  /** A list without repetitions, all of whose entries occur in another list without
      repetitions, is no longer than it. */
  lemma DistinctShorter(w: seq<string>, d: seq<string>)
    requires NoDuplicates(w) && NoDuplicates(d)
    requires forall x :: x in w ==> x in d
    ensures |w| <= |d|
  {
    DistinctCard(w);
    DistinctCard(d);
    var few := set x | x in w;
    var all := set x | x in d;
    assert all == few + (all - few) && few * (all - few) == {};
  }

  /** What the call returns once the data source answered with `items`: the KeyError of the first
      unrequested id, or the hits merged with the fetched timelines. */
  function FetchedOutcome(hits: map<string, Value>, items: seq<Item>, requested: seq<string>): (r: Outcome<map<string, Value>>)
    ensures r.Raised? <==> exists j :: 0 <= j < |items| && items[j].0 !in requested
    ensures r.Raised? ==> r.error.KeyError? && r.error.key !in requested
    ensures r.Ok? ==> r.value == hits + ItemsMap(items)
  {
    var stop := FirstUnrequested(items, requested);
    if stop < |items| then Raised(KeyError(items[stop].0)) else Ok(hits + ItemsMap(items))
  }

  /** The effect of one `cache_service.set(key, timeline, 3600)` on the store and the tick. */
  function WriteOne(faults: set<nat>, state: (map<string, Entry>, nat), workspaceId: int, item: Item,
                    digest: Digest): (map<string, Entry>, nat)
  {
    var (data, tick) := state;
    if item.1.Unpicklable? then state
    else if tick in faults then (data, tick + 1)
    else (data[TimelineKey(workspaceId, item.0, digest) := Entry(Pickled(item.1), TimelineTtl)], tick + 1)
  }

  /** The writes of the second loop, one `set` per item in order. */
  function WriteAll(faults: set<nat>, tick: nat, data: map<string, Entry>, workspaceId: int,
                    items: seq<Item>, digest: Digest): (out: (map<string, Entry>, nat))
    ensures tick <= out.1 <= tick + |items|
    decreases |items|
  {
    if items == [] then (data, tick)
    else
      var n := |items| - 1;
      WriteOne(faults, WriteAll(faults, tick, data, workspaceId, items[..n], digest), workspaceId, items[n], digest)
  }

  /** One more item is one more `set`. */
  lemma WriteAllStep(faults: set<nat>, tick: nat, data: map<string, Entry>, workspaceId: int,
                     items: seq<Item>, i: nat, digest: Digest)
    requires i < |items|
    ensures WriteAll(faults, tick, data, workspaceId, items[..i + 1], digest)
            == WriteOne(faults, WriteAll(faults, tick, data, workspaceId, items[..i], digest), workspaceId, items[i], digest)
  {
    assert items[..i + 1][..i] == items[..i];
  }

  /** The writes never remove a key. */
  lemma {:induction false} WriteAllKeepsKeys(faults: set<nat>, tick: nat, data: map<string, Entry>, workspaceId: int,
                                             items: seq<Item>, digest: Digest)
    ensures data.Keys <= WriteAll(faults, tick, data, workspaceId, items, digest).0.Keys
    decreases |items|
  {
    if items != [] {
      WriteAllKeepsKeys(faults, tick, data, workspaceId, items[..|items| - 1], digest);
    }
  }

  /** Keys no item maps to are left alone. */
  lemma {:induction false} WriteAllFrame(faults: set<nat>, tick: nat, data: map<string, Entry>, workspaceId: int,
                                         items: seq<Item>, digest: Digest, k: string)
    requires forall j :: 0 <= j < |items| ==> TimelineKey(workspaceId, items[j].0, digest) != k
    ensures var out := WriteAll(faults, tick, data, workspaceId, items, digest).0;
            (k in out <==> k in data) && (k in data ==> out[k] == data[k])
    decreases |items|
  {
    if items != [] {
      var n := |items| - 1;
      WriteAllFrame(faults, tick, data, workspaceId, items[..n], digest, k);
    }
  }

  /** With no server error in the window, each picklable item whose key no later item reuses ends
      up stored under its key with the timeline TTL. */
  lemma {:induction false} WriteAllStores(faults: set<nat>, tick: nat, data: map<string, Entry>, workspaceId: int,
                                          items: seq<Item>, digest: Digest, j: nat)
    requires forall t :: tick <= t < tick + |items| ==> t !in faults
    requires j < |items| && !items[j].1.Unpicklable?
    requires forall m :: j < m < |items| ==>
               TimelineKey(workspaceId, items[m].0, digest) != TimelineKey(workspaceId, items[j].0, digest)
    ensures var out := WriteAll(faults, tick, data, workspaceId, items, digest).0;
            var key := TimelineKey(workspaceId, items[j].0, digest);
            key in out && out[key] == Entry(Pickled(items[j].1), TimelineTtl)
    decreases |items|
  {
    var n := |items| - 1;
    var prev := WriteAll(faults, tick, data, workspaceId, items[..n], digest);
    var key := TimelineKey(workspaceId, items[j].0, digest);
    if j < n {
      assert key in prev.0 && prev.0[key] == Entry(Pickled(items[j].1), TimelineTtl) by {
        WriteAllStores(faults, tick, data, workspaceId, items[..n], digest, j);
      }
      assert TimelineKey(workspaceId, items[n].0, digest) != key;
    } else {
      assert prev.1 !in faults;
    }
  }

  /** The first loop: one `get` per distinct id, in order, sorting the ids into hits and misses. */
  method LookupTimelines(cache: CacheService, workspaceId: int, ids: seq<string>)
    returns (hits: map<string, Value>, misses: seq<string>)
    modifies cache.redis
    ensures cache.redis.data == old(cache.redis.data) && cache.redis.clock == old(cache.redis.clock) + |ids|
    ensures var obs := Observations(cache.redis.faults, old(cache.redis.clock), old(cache.redis.data),
                                    workspaceId, ids, cache.digest);
            hits == Hits(ids, obs) && misses == Misses(ids, obs)
  {
    ghost var data0, c0 := cache.redis.data, cache.redis.clock;
    ghost var obs := Observations(cache.redis.faults, c0, data0, workspaceId, ids, cache.digest);
    hits, misses := map[], [];
    for j := 0 to |ids|
      invariant cache.redis.data == data0 && cache.redis.clock == c0 + j
      invariant hits == Hits(ids[..j], obs[..j]) && misses == Misses(ids[..j], obs[..j])
    {
      var cached := cache.Get(TimelineKey(workspaceId, ids[j], cache.digest));
      assert cached == obs[j];
      HitsMissesStep(ids, obs, j);
      if cached != PyNone {
        hits := hits[ids[j] := cached];
      } else {
        misses := misses + [ids[j]];
      }
    }
    assert ids[..|ids|] == ids && obs[..|ids|] == obs;
  }

  /** The second loop: one `set` per fetched item, stopping with the id of the first item that
      was not requested (the KeyError of `cache_keys[player_id]`). */
  method StoreTimelines(cache: CacheService, workspaceId: int, items: seq<Item>, playerIds: seq<string>,
                        cacheKeys: map<string, string>)
    returns (unrequested: Option<string>)
    requires forall id :: id in cacheKeys <==> id in playerIds
    requires forall id :: id in cacheKeys ==> cacheKeys[id] == TimelineKey(workspaceId, id, cache.digest)
    modifies cache.redis
    ensures var stop := FirstUnrequested(items, playerIds);
            && (cache.redis.data, cache.redis.clock)
               == WriteAll(cache.redis.faults, old(cache.redis.clock), old(cache.redis.data), workspaceId, items[..stop], cache.digest)
            && (stop < |items| ==> unrequested == Some(items[stop].0))
            && (stop == |items| ==> unrequested == None)
  {
    ghost var data0, c0 := cache.redis.data, cache.redis.clock;
    ghost var stop := FirstUnrequested(items, playerIds);
    for i := 0 to |items|
      invariant i <= stop
      invariant (cache.redis.data, cache.redis.clock)
                == WriteAll(cache.redis.faults, c0, data0, workspaceId, items[..i], cache.digest)
    {
      var (playerId, timeline) := items[i];
      if playerId !in cacheKeys {
        assert i == stop;
        return Some(playerId);
      }
      assert i < stop;
      WriteAllStep(cache.redis.faults, c0, data0, workspaceId, items, i, cache.digest);
      ghost var before := (cache.redis.data, cache.redis.clock);
      assert cacheKeys[playerId] == TimelineKey(workspaceId, playerId, cache.digest);
      assert SetTtl(Some(TimelineTtl)) == TimelineTtl;
      var _ := cache.Set(cacheKeys[playerId], timeline, Some(TimelineTtl));
      assert (cache.redis.data, cache.redis.clock)
             == WriteOne(cache.redis.faults, before, workspaceId, items[i], cache.digest);
    }
    assert items[..|items|] == items && stop == |items|;
    unrequested := None;
  }

  /** The miss path: one call of the data source with the missing ids, the fetched timelines
      cached, and the merge with the hits. */
  method FetchAndStore(cache: CacheService, workspaceId: int, playerIds: seq<string>, cacheKeys: map<string, string>,
                       hits: map<string, Value>, misses: seq<string>, fetch: (int, seq<string>) -> Outcome<seq<Item>>,
                       ghost start: nat)
    returns (r: Outcome<map<string, Value>>)
    requires forall id :: id in cacheKeys <==> id in playerIds
    requires forall id :: id in cacheKeys ==> cacheKeys[id] == TimelineKey(workspaceId, id, cache.digest)
    requires cache.redis.clock == start + |Dedup(playerIds)|
    modifies cache.redis
    ensures fetch(workspaceId, misses).Raised? ==>
              && r == Raised(fetch(workspaceId, misses).error)
              && cache.redis.data == old(cache.redis.data) && cache.redis.clock == start + |Dedup(playerIds)|
    ensures fetch(workspaceId, misses).Ok? ==>
              && cache.redis.data == StoredUntilUnrequested(cache.redis.faults, start + |Dedup(playerIds)|, old(cache.redis.data),
                                                            workspaceId, fetch(workspaceId, misses).value, playerIds, cache.digest).0
              && r == FetchedOutcome(hits, fetch(workspaceId, misses).value, playerIds)
    ensures fetch(workspaceId, misses).Ok? ==>
              cache.redis.clock == StoredUntilUnrequested(cache.redis.faults, start + |Dedup(playerIds)|, old(cache.redis.data),
                                                          workspaceId, fetch(workspaceId, misses).value, playerIds, cache.digest).1
  {
    var fetched := fetch(workspaceId, misses);
    if fetched.Raised? {
      return Raised(fetched.error);
    }
    var items := fetched.value;
    var unrequested := StoreTimelines(cache, workspaceId, items, playerIds, cacheKeys);
    assert (cache.redis.data, cache.redis.clock)
           == StoredUntilUnrequested(cache.redis.faults, start + |Dedup(playerIds)|, old(cache.redis.data),
                                     workspaceId, items, playerIds, cache.digest);
    if unrequested.Some? {
      return Raised(KeyError(unrequested.value));
    }
    r := Ok(hits + ItemsMap(items));
  }

  /** `batch_cache_player_timelines` on `cache`, with `fetch` standing for the database's batch
      query. Returns the result (or the error raised) and the id list the data source was asked
      for, if it was called. */
  method BatchCachePlayerTimelines(cache: CacheService, workspaceId: int, playerIds: seq<string>,
                                   fetch: (int, seq<string>) -> Outcome<seq<Item>>)
    returns (r: Outcome<map<string, Value>>, request: Option<seq<string>>)
    modifies cache.redis
    ensures var ids := Dedup(playerIds);
            var obs := Observations(cache.redis.faults, old(cache.redis.clock), old(cache.redis.data), workspaceId, ids, cache.digest);
            var misses := Misses(ids, obs);
            && request == (if misses == [] then None else Some(misses))
            && (misses == [] ==> r == Ok(Hits(ids, obs)) && cache.redis.data == old(cache.redis.data))
    ensures request.None? ==> cache.redis.clock == old(cache.redis.clock) + |Dedup(playerIds)|
    ensures request.Some? && fetch(workspaceId, request.value).Raised? ==>
              && r == Raised(fetch(workspaceId, request.value).error)
              && cache.redis.data == old(cache.redis.data)
              && cache.redis.clock == old(cache.redis.clock) + |Dedup(playerIds)|
    ensures var ids := Dedup(playerIds);
            var hits := Hits(ids, Observations(cache.redis.faults, old(cache.redis.clock), old(cache.redis.data), workspaceId, ids, cache.digest));
            request.Some? && fetch(workspaceId, request.value).Ok? ==>
              && cache.redis.data == StoredUntilUnrequested(cache.redis.faults, old(cache.redis.clock) + |ids|,
                                       old(cache.redis.data), workspaceId, fetch(workspaceId, request.value).value, playerIds, cache.digest).0
              && r == FetchedOutcome(hits, fetch(workspaceId, request.value).value, playerIds)
    ensures var ids := Dedup(playerIds);
            request.Some? && fetch(workspaceId, request.value).Ok? ==>
              cache.redis.clock == StoredUntilUnrequested(cache.redis.faults, old(cache.redis.clock) + |ids|,
                                     old(cache.redis.data), workspaceId, fetch(workspaceId, request.value).value, playerIds, cache.digest).1
  {
    ghost var data0, c0 := cache.redis.data, cache.redis.clock;
    var cacheKeys := CacheKeys(workspaceId, playerIds, cache.digest);
    var ids := Dedup(playerIds);
    var hits, misses := LookupTimelines(cache, workspaceId, ids);
    assert cache.redis.data == data0 && cache.redis.clock == c0 + |ids|;
    if misses == [] {
      return Ok(hits), None;
    }
    request := Some(misses);
    r := FetchAndStore(cache, workspaceId, playerIds, cacheKeys, hits, misses, fetch, c0);
  }
}
