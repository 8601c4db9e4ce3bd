# Read-through cache and settings of the PlayerCore ML service, in Dafny

This project models two parts of the machine-learning service. Everything in it is proved by
the Dafny verifier; nothing is compiled or executed.

- **The read-through cache** (`CacheService` in `machine_learning/src/services/cache_service.py`):
  - cache-key derivation;
  - the TTL policy;
  - `set`, `get` and `get_or_compute`, which never raise on server errors;
  - pattern invalidation: per workspace, per gateway and for the microtendencias dashboards;
  - `clear_all_cache` and `health_check`;
  - the batch helper `batch_cache_player_timelines`.
- **The settings layer** (`machine_learning/src/utils/config.py`):
  - the per-environment defaults;
  - the environment-variable overrides applied when settings are constructed;
  - the two database URL properties;
  - `get_settings`.

The Redis server is the class `Backend.Redis`. Its fields are the key/value map and a command
clock. Server failures follow a fault schedule: the command issued at tick `t` raises
`ConnectionError` exactly when `t` is in the fixed set `faults`. Every command advances the clock,
whether it fails or not. Each cache method is therefore proved against every pattern of failures.
Each cache method states its new store in terms of this schedule, and each method of
`CacheService` also states how far it moves the clock. The invalidation
loops are specified by pure functions over the schedule, one for `invalidate_pattern`'s
single step and one for each loop, and their lemmas give the exact keys removed, the clock bounds
and the effect of a partial failure.

Modules, one per file:

| module | file | content |
|---|---|---|
| `Results` | results.dfy | `Option`, Python exceptions, and `Outcome` (a value or a raised exception) |
| `Text` | text.dfy | substring search, string ordering, `str(int)`/`int(str)`, `lower()`, `replace()` |
| `Glob` | glob.dfy | Redis `KEYS` glob matching with `*` |
| `KeyCodec` | key_codec.dfy | `_generate_cache_key`: drop None arguments, sort by name, digest, prefix |
| `Backend` | backend.dfy | values, pickling, and the Redis store class |
| `Invalidation` | invalidation.dfy | the invalidation pattern lists and what they can match |
| `Cache` | cache.dfy | the `CacheService` class: TTLs, `set`/`get`/`get_or_compute`, invalidation, flush, health |
| `Batch` | batch.dfy | `batch_cache_player_timelines` |
| `Config` | config.dfy | settings, overrides, database URLs, `get_settings` |

Behaviour of the code worth noting:

- `health_check` reports "healthy" whenever none of its three Redis commands raised, even when
  the value read back differs from the probe; only `read_test` records that.
- The TTL fallbacks use Python's `or`, so an explicit TTL of 0 is treated like a missing one, not
  only `None`.
- An unset or zero TTL given to `set` falls back to 300 seconds, because the table has no
  "default" entry. It does not fall back to a per-category value.

## Model

| member | source | states |
|---|---|---|
| KeyCodec.CacheKey | machine_learning/src/services/cache_service.py:58-80 | the key is the prefix, a colon and exactly 8 lowercase hex digits (length prefix + 9) |
| Cache.CacheService.GenerateCacheKey | machine_learning/src/services/cache_service.py:58-66 | the service's key has the form `prefix:hhhhhhhh` with 8 lowercase hex digits |
| KeyCodec.NonNullMembers | machine_learning/src/services/cache_service.py:61 | the cleaned arguments are exactly the given ones whose value is not None |
| KeyCodec.NonNullDistinct | machine_learning/src/services/cache_service.py:61 | dropping None values keeps argument names distinct |
| KeyCodec.NonNullConcat | machine_learning/src/services/cache_service.py:61 | the None filter distributes over concatenation of argument lists |
| KeyCodec.InsertMultiset | machine_learning/src/services/cache_service.py:64 | inserting into the name order adds exactly that one argument |
| KeyCodec.InsertSorted | machine_learning/src/services/cache_service.py:64 | inserting an argument with a fresh name into a strictly name-sorted list keeps it strictly sorted |
| KeyCodec.InsertAbove | machine_learning/src/services/cache_service.py:64 | insertion keeps every name above a lower bound that all inputs are above |
| KeyCodec.SortByNameMultiset | machine_learning/src/services/cache_service.py:64 | `sort_keys` only reorders: the sorted list is a permutation of its input |
| KeyCodec.SortByNameSorted | machine_learning/src/services/cache_service.py:64 | with distinct names the serialised order is strictly ascending by name |
| KeyCodec.SortedUnique | machine_learning/src/services/cache_service.py:64 | two strictly name-sorted lists with the same elements are equal |
| KeyCodec.CanonicalFormMembers | machine_learning/src/services/cache_service.py:61-64 | the digested form is strictly sorted and holds exactly the non-None arguments |
| KeyCodec.CanonicalFormDeterminedByPairs | machine_learning/src/services/cache_service.py:61-64 | the digested form depends only on the set of non-None (name, value) pairs |
| KeyCodec.CacheKeyIgnoresOrder | machine_learning/src/services/cache_service.py:58-66 | reordering keyword arguments never changes the key |
| KeyCodec.NullSameAsOmitted | machine_learning/src/services/cache_service.py:60-61 | passing an argument as None gives the same key as omitting it |
| KeyCodec.CategorySeparation | machine_learning/src/services/cache_service.py:66 | keys of different prefixes never coincide, whatever the arguments |
| Cache.TtlFor | machine_learning/src/services/cache_service.py:39-50 | the table's TTL for a listed category, else 300; every value lies in [300, 7200] |
| Cache.SetTtlIsTableFallback | machine_learning/src/services/cache_service.py:94 | the table has no "default" entry, so `set`'s fallback is the 300 s default of the lookup |
| Cache.ComputeTtl | machine_learning/src/services/cache_service.py:152 | a truthy TTL wins; otherwise the category's table entry or 300; never 0 |
| Cache.ComputedTtlReachesStore | machine_learning/src/services/cache_service.py:152-153 | the TTL chosen by get_or_compute reaches SETEX unchanged and is positive when defaulted |
| Backend.Redis.Setex | machine_learning/src/services/cache_service.py:92-96 | SETEX stores the blob with its TTL unless the command faults (ConnectionError) or the TTL is not positive (ResponseError); the clock advances by one |
| Backend.Redis.Get | machine_learning/src/services/cache_service.py:112 | GET returns the stored blob or None, or raises ConnectionError at a fault; the store is unchanged |
| Backend.Redis.Keys | machine_learning/src/services/cache_service.py:164 | KEYS returns exactly the stored keys matching the glob, or raises at a fault |
| Backend.Redis.Delete | machine_learning/src/services/cache_service.py:166 | DEL removes the given keys and returns how many existed; an empty key list is a ResponseError |
| Backend.Redis.Flushdb | machine_learning/src/services/cache_service.py:296 | FLUSHDB empties the store or raises ConnectionError leaving it intact |
| Backend.FaultInSplit | machine_learning/src/services/cache_service.py:186-188 | a run of commands is fault-free exactly when both of its parts are |
| Cache.CacheService.Set | machine_learning/src/services/cache_service.py:82-107 | returns true exactly when the value pickles, SETEX does not fault and the TTL is positive; the store then holds the pickled value under the key with `ttl or 300`; otherwise the store is unchanged; never raises |
| Cache.LookupAfterSet | machine_learning/src/services/cache_service.py:82-131 | a key just written reads back its value; other keys read as before |
| Cache.StoredNoneReadsAsMiss | machine_learning/src/services/cache_service.py:112-118 | a key holding a pickled None reads exactly like an absent key, and a faulting GET reads as None too, so `get_or_compute` recomputes in all three cases |
| Cache.CacheService.Get | machine_learning/src/services/cache_service.py:109-131 | returns exactly the observed value at its tick; the store is unchanged; never raises |
| Cache.CacheService.SetThenGet | machine_learning/src/services/cache_service.py:82-131 | a successful `set` followed by a fault-free `get` of the same key returns the value written |
| Cache.CacheService.GetOrCompute | machine_learning/src/services/cache_service.py:133-159 | a keyword argument named `prefix` raises TypeError with nothing computed, stored or sent (it is passed twice to `_generate_cache_key`, line 58); otherwise a non-None cached value is returned without computing; on a miss compute runs once and its error propagates with nothing stored; a result is stored under the derived key with the chosen TTL when `set` succeeds and returned either way; the clock advances by 0 on that TypeError, by 1, or by 2 when a picklable result was passed to `set` |
| Glob.MatchSplit | machine_learning/src/services/cache_service.py:164 | a text matching a concatenated pattern splits into parts matching each half |
| Glob.MatchConcat | machine_learning/src/services/cache_service.py:164 | matches of two patterns concatenate into a match of the joined pattern |
| Glob.StarFreeMatch | machine_learning/src/services/cache_service.py:164 | a pattern without `*` matches only itself |
| Glob.StarMatchesAll | machine_learning/src/services/cache_service.py:164 | `*` matches every text |
| Glob.MatchedLiteralOccurs | machine_learning/src/services/cache_service.py:164 | a literal between stars must occur in any matched text |
| Glob.NarrowerAfterStar | machine_learning/src/services/cache_service.py:164 | text after a trailing star only narrows a pattern |
| Glob.MatchesSomeWitness | machine_learning/src/services/cache_service.py:187-188 | a key matched by a pattern list is matched by a particular pattern |
| Glob.MatchesSomeIntro | machine_learning/src/services/cache_service.py:187-188 | a key matched by one listed pattern is matched by the list |
| Glob.MatchesSomeExtend | machine_learning/src/services/cache_service.py:187-188 | one more pattern adds exactly the keys it matches |
| Glob.MatchesSomePrefix | machine_learning/src/services/cache_service.py:319-324 | keys matched by the first patterns are matched by the whole list |
| Cache.CacheService.DeleteMatching | machine_learning/src/services/cache_service.py:164-166 | KEYS then DEL when something matched: removes exactly the matching keys and returns their number, unless one of its commands faults, in which case the store is unchanged; its store, clock and failure are those of `DeleteStep` |
| Cache.CacheService.InvalidatePattern | machine_learning/src/services/cache_service.py:161-172 | removes exactly the keys matching the glob and returns their count; returns 0 with the store unchanged on a fault; never raises; the clock advances by 1 or 2; store, count and clock are those of `DeleteStep` |
| Cache.DeleteStep | machine_learning/src/services/cache_service.py:163-172 | one invalidation step costs one or two commands; it raised exactly when one of them faulted, and then changed nothing and counts 0; otherwise it removed exactly the matching keys and counts them |
| Cache.InvalidateRunClock | machine_learning/src/services/cache_service.py:186-188 | a run over n patterns issues between n and 2n commands, and raised exactly when a command in that window faulted |
| Cache.InvalidateRunDeletes | machine_learning/src/services/cache_service.py:186-188 | the run only deletes, and each deleted key matches one of the patterns |
| Cache.InvalidateRunCounts | machine_learning/src/services/cache_service.py:186-188 | the summed count is exactly the number of keys the run deleted |
| Cache.InvalidateRunExact | machine_learning/src/services/cache_service.py:186-188 | without a fault the run removes exactly the keys matching any pattern |
| Cache.InvalidateRunSpec | machine_learning/src/services/cache_service.py:186-191 | the clock bounds, the fault window, the deletions, the count and the exact removal of a whole run, together |
| Cache.SurvivorsFailedTheirPattern | machine_learning/src/services/cache_service.py:161-172 | a key matching pattern i survives the loop only if pattern i's own step raised: an error in one pattern does not stop the later ones |
| Cache.InvalidateRunShrinks | machine_learning/src/services/cache_service.py:186-188 | later patterns only delete: the final store is part of the store after any first j patterns |
| Cache.CacheService.InvalidateEach | machine_learning/src/services/cache_service.py:186-191 | store, total and clock are those of `InvalidateRun` over the patterns; the clock advances by between n and 2n for n patterns; only keys matching some pattern are deleted and the total counts them; without faults exactly the matching keys are removed |
| Cache.RemovedGrows | machine_learning/src/services/cache_service.py:187-188 | one more pattern removes the surviving keys it matches, disjoint from those already removed |
| Invalidation.ScopedPatternNeedsMarker | machine_learning/src/services/cache_service.py:176-184 | every text a `category:*workspace_id*...` pattern matches contains "workspace_id" |
| Invalidation.DerivedKeyLacksMarker | machine_learning/src/services/cache_service.py:58-66 | a derived key contains "workspace_id" only if its prefix does |
| Invalidation.DerivedKeysEscapeWorkspacePatterns | machine_learning/src/services/cache_service.py:174-184 | no workspace pattern matches any key `_generate_cache_key` produces for a prefix without "workspace_id" |
| Invalidation.DerivedKeysEscapeGatewayPatterns | machine_learning/src/services/cache_service.py:193-209 | in both modes, no gateway pattern matches any derived key |
| Invalidation.GatewayModeNarrower | machine_learning/src/services/cache_service.py:195-209 | each gateway-specific pattern matches only keys the corresponding workspace-wide gateway pattern matches |
| Invalidation.ScopedNarrower | machine_learning/src/services/cache_service.py:198-208 | appending `gateway_id*{id}*` after the workspace star only narrows a pattern |
| Invalidation.IntToStringStarFree | machine_learning/src/services/cache_service.py:177 | a formatted integer contains no `*` |
| Invalidation.WorkspacePatternIsSubstringTest | machine_learning/src/services/cache_service.py:177-183 | a workspace pattern matches any key of its category that mentions "workspace_id" and later the id's digits, so workspace 1's pattern also matches text naming 12 |
| Invalidation.CategoryPatternMatchesDerivedKeys | machine_learning/src/services/cache_service.py:306-311 | a bare `category:*` pattern matches every key derived for that category |
| Invalidation.WorkspacePatterns | machine_learning/src/services/cache_service.py:176-184 | seven patterns, one per listed category, each matching only keys that contain "workspace_id" |
| Invalidation.GatewayPatterns | machine_learning/src/services/cache_service.py:195-209 | three patterns in either mode, each matching only keys that contain "workspace_id" |
| Cache.CacheService.InvalidateWorkspace | machine_learning/src/services/cache_service.py:174-191 | store, total and clock are those of `InvalidateRun` over the seven patterns, the clock advancing by 7 to 14; only matching keys are deleted and the total counts them; every key derived by `_generate_cache_key` (prefix without "workspace_id") survives |
| Cache.CacheService.InvalidateGatewayCache | machine_learning/src/services/cache_service.py:193-219 | the mode is chosen by `gateway_id is not None`; store, total and clock are those of `InvalidateRun` over the three patterns, the clock advancing by 3 to 6; only matching keys are deleted and the total counts them; every derived key survives |
| Cache.CacheService.ClearMicrotendenciasCache | machine_learning/src/services/cache_service.py:303-331 | the same four global patterns whatever the workspace; store and clock are those of `ClearRun`, the clock advancing by 1 to 8; without faults removes exactly the matching keys and returns their number; on a fault returns 0 and the store is the original minus the keys matching the patterns before the failing one |
| Cache.CacheService.ClearEach | machine_learning/src/services/cache_service.py:318-331 | the loop of `clear_microtendencias_cache`: store and clock are those of `ClearRun`; the total is the run's count, or 0 once a step raised |
| Cache.ClearRunClock | machine_learning/src/services/cache_service.py:318-331 | the loop issues at least one command, at most two per pattern, and raised exactly when a command in that window faulted |
| Cache.ClearRunAgrees | machine_learning/src/services/cache_service.py:318-331 | a run that never raised is exactly the invalidation loop over the same patterns |
| Cache.ClearRunDeletes | machine_learning/src/services/cache_service.py:318-331 | the loop only deletes, and each deleted key matches one of the patterns |
| Cache.ClearRunPartial | machine_learning/src/services/cache_service.py:318-331 | after a fault the store is the original minus exactly the keys matching the patterns before the failing one |
| Cache.ClearRunStops | machine_learning/src/services/cache_service.py:319-331 | once a step raised the loop is over: the run over all patterns equals the run up to the failing one |
| Cache.ClearRunSpec | machine_learning/src/services/cache_service.py:318-331 | the run issues at least one and at most 2n commands and raised exactly when one of them faulted; it only deletes matching keys; without a fault it equals the invalidation loop; after a fault the patterns before the failing one were fully processed and nothing more |
| Cache.CacheService.ClearAllCache | machine_learning/src/services/cache_service.py:292-301 | returns 1 and empties the store exactly when FLUSHDB does not fault, else 0 with the store unchanged |
| Cache.CacheService.HealthCheck | machine_learning/src/services/cache_service.py:258-290 | healthy exactly when none of SETEX, GET and DEL faults, and then both tests pass and only the probe key is gone; unhealthy carries ConnectionError, and the probe stays stored when SETEX succeeded but a later command faulted; the clock advances by 1, 2 or 3 as the first fault stops it |
| Batch.TimelineTtlFromTable | machine_learning/src/services/cache_service.py:399 | the timeline TTL is the table's entry for "player_timeline" (3600) |
| Batch.Dedup | machine_learning/src/services/cache_service.py:379 | the dictionary's keys are no more than the requested ids |
| Batch.DedupMembers | machine_learning/src/services/cache_service.py:372-379 | the ids looked up are exactly the requested ones |
| Batch.DedupSpec | machine_learning/src/services/cache_service.py:372-379 | each distinct id is looked up once, in order of first request |
| Batch.DedupOfDistinct | machine_learning/src/services/cache_service.py:372-379 | a duplicate-free request is looked up in its own order |
| Batch.Observations | machine_learning/src/services/cache_service.py:379-380 | one observation per id looked up |
| Batch.HitsMissesStep | machine_learning/src/services/cache_service.py:381-384 | each lookup adds its id to the hits or appends it to the misses |
| Batch.HitsAreHits | machine_learning/src/services/cache_service.py:381-382 | every hit is a requested id whose lookup returned something other than None |
| Batch.HitsComplete | machine_learning/src/services/cache_service.py:381-382 | every id read as non-None is a hit with the value read |
| Batch.MissesAreRequested | machine_learning/src/services/cache_service.py:383-384 | every miss is a requested id |
| Batch.MissesComplete | machine_learning/src/services/cache_service.py:383-384 | an id is a miss exactly when its lookup returned None |
| Batch.MissesInOrder | machine_learning/src/services/cache_service.py:383-384 | misses keep lookup order and contain no duplicates |
| Batch.LookupTimelines | machine_learning/src/services/cache_service.py:379-384 | one `get` per distinct id, the store unchanged; hits and misses are exactly those of the observations |
| Batch.ItemsMapDomain | machine_learning/src/services/cache_service.py:400 | the fetched dictionary holds exactly the returned ids |
| Batch.ItemsMapValues | machine_learning/src/services/cache_service.py:400 | each returned id maps to its own timeline |
| Batch.MergeSpec | machine_learning/src/services/cache_service.py:405 | the merged result holds hits and fetched ids; fetched timelines win; other hits are kept |
| Batch.FirstUnrequested | machine_learning/src/services/cache_service.py:400-401 | the index of the first returned id that was not requested, where `cache_keys[player_id]` raises |
| Batch.FetchedOutcome | machine_learning/src/services/cache_service.py:400-405 | KeyError exactly when a returned id was not requested, naming such an id; otherwise hits merged with the fetched items |
| Batch.WriteAll | machine_learning/src/services/cache_service.py:400-402 | each write advances the clock by at most one |
| Batch.WriteAllStep | machine_learning/src/services/cache_service.py:400-402 | storing one more item is one more `set` |
| Batch.WriteAllKeepsKeys | machine_learning/src/services/cache_service.py:400-402 | storing fetched timelines never removes a key |
| Batch.WriteAllFrame | machine_learning/src/services/cache_service.py:400-402 | keys other than the items' derived keys are untouched |
| Batch.WriteAllStores | machine_learning/src/services/cache_service.py:400-402 | without faults, each item's timeline is stored under its key with TTL 3600 unless a later item overwrites it |
| Batch.StoredWithinRequested | machine_learning/src/services/cache_service.py:399-402 | with distinct returned ids the second loop stops within one write per distinct requested id, so it advances the clock by at most that many |
| Batch.StoreTimelines | machine_learning/src/services/cache_service.py:399-402 | one `set` per returned item up to the first unrequested id, whose id it reports |
| Batch.FetchAndStore | machine_learning/src/services/cache_service.py:396-405 | a data-source error propagates with the store and clock untouched; otherwise store and clock are those of writing the items up to the first unrequested id, and the result is the merge or the KeyError |
| Batch.BatchCachePlayerTimelines | machine_learning/src/services/cache_service.py:368-406 | without misses returns the hits and never calls the data source; otherwise calls it once with exactly the misses, stores what it returns, and returns the merge or the error; the clock advances by one `get` per distinct id, then by the writes made, on every path |
| Text.OccursAround | machine_learning/src/services/cache_service.py:164 | a text contains every piece it is built around |
| Text.FirstCharAbsent | machine_learning/src/utils/config.py:85 | a text lacking a fragment's first character cannot contain that fragment |
| Text.NoOccurrenceAcross | machine_learning/src/services/cache_service.py:66 | a short tail starting with a foreign character cannot complete an occurrence |
| Text.LessIrreflexive | machine_learning/src/services/cache_service.py:64 | no name sorts before itself |
| Text.LessTransitive | machine_learning/src/services/cache_service.py:64 | string order is transitive |
| Text.LessTotal | machine_learning/src/services/cache_service.py:64 | two different names are ordered one way or the other |
| Text.NatToString | machine_learning/src/services/cache_service.py:177 | `str(n)` is a non-empty string of decimal digits |
| Text.NatToStringRoundTrip | machine_learning/src/utils/config.py:76 | the digits of `str(n)` read back as `n` |
| Text.IntToStringRoundTrip | machine_learning/src/utils/config.py:76 | `int(str(i)) == i` |
| Text.NoRoomAfter | machine_learning/src/utils/config.py:85 | a text whose only possible start of an occurrence is too close to its end does not contain it |
| Text.NotAtFront | machine_learning/src/utils/config.py:83-85 | when no occurrence starts inside a non-empty prefix, none starts at its first character, and none starts inside the rest of it |
| Text.ReplaceFirstSplit | machine_learning/src/utils/config.py:83 | `replace(pat, rep, 1)` rewrites the first occurrence wherever it lies and keeps everything after it, later occurrences included |
| Text.ReplaceAllSplit | machine_learning/src/utils/config.py:85 | `replace(pat, rep)` rewrites the first occurrence wherever it lies and resumes scanning right after it |
| Text.ReplaceFirstAtStart | machine_learning/src/utils/config.py:83 | a leading occurrence is the one replaced; the rest is kept verbatim |
| Text.ReplaceAllSkips | machine_learning/src/utils/config.py:85 | a piece without the pattern's first character passes through `replace` untouched |
| Text.ReplaceAllAtStart | machine_learning/src/utils/config.py:85 | a leading occurrence is replaced and scanning resumes after it |
| Config.EnvironmentDefaults | machine_learning/src/utils/config.py:109-127 | only production caches, runs without debug, logs WARNING and retrains every 12 h; only testing uses its own database; all other fields keep the base defaults |
| Config.ApplyEnvOverrides | machine_learning/src/utils/config.py:60-76 | each of DATABASE_URL, DB_HOST, DB_USER, DB_PASSWORD, DB_NAME, DB_PORT overrides its field exactly when set and non-empty; DB_PORT is parsed and a non-integer raises ValueError; every other field is unchanged |
| Config.OverridesIdempotent | machine_learning/src/utils/config.py:60-76 | applying the overrides twice is the same as once |
| Config.PortOverrideRoundTrip | machine_learning/src/utils/config.py:75-76 | a DB_PORT written as `str(p)` sets the port to `p` |
| Config.ExplicitEnvironmentWins | machine_learning/src/utils/config.py:133 | a non-empty argument is used without lower-casing, so "Production" gives development |
| Config.EnvironmentVariableSelects | machine_learning/src/utils/config.py:133-140 | without an argument ENVIRONMENT is lower-cased, and unset means development |
| Config.UpperCaseVariableSelectsProduction | machine_learning/src/utils/config.py:133-136 | ENVIRONMENT=PRODUCTION selects production, while the argument "PRODUCTION" selects development |
| Config.DefaultSettings | machine_learning/src/utils/config.py:129-140 | with an empty environment get_settings() is the development defaults: cache off, debug on |
| Config.GetSettings | machine_learning/src/utils/config.py:129-140 | get_settings raises exactly on a non-integer DB_PORT; the result caches and runs without debug exactly when the selected class is production |
| Config.StripFragments | machine_learning/src/utils/config.py:85 | a URL containing none of the fragments is returned unchanged |
| Config.DatabaseUrl | machine_learning/src/utils/config.py:78-91 | a complete URL with neither `postgresql://` nor an sslmode fragment is returned as given |
| Config.DatabaseUrlSync | machine_learning/src/utils/config.py:93-103 | a complete URL without `postgresql://` is returned as given; fragments are never removed |
| Config.StripFragmentsSkips | machine_learning/src/utils/config.py:85 | fragment removal passes over a prefix holding no `?` or `&` untouched |
| Config.DatabaseUrlRewritesFirstScheme | machine_learning/src/utils/config.py:81-98 | only the first `postgresql://` is rewritten, wherever it lies, and the text around it is kept; for asyncpg the fragments are removed only after the new scheme |
| Config.SslFragmentDropped | machine_learning/src/utils/config.py:85 | `?sslmode=require` after a host part without `?`/`&` is removed and a clean tail is kept |
| Config.SchemeRewrittenAndSslDropped | machine_learning/src/utils/config.py:81-86 | `postgresql://{host}?sslmode=require{tail}` becomes `postgresql+asyncpg://{host}{tail}` for asyncpg, and the psycopg2 URL swaps the scheme but keeps the fragment |
| Config.ComposedUrlsAgree | machine_learning/src/utils/config.py:87-103 | without a complete URL both properties compose the same text after their own schemes |

## Left out

- The Redis connection, `ping` and the environment reads in `CacheService.__init__`, and the
  module-level `cache_service` instance, are network set-up. The store is a `Backend.Redis`
  object passed to the constructor.
- `get_stats` and `_calculate_hit_rate` parse the server's INFO output and divide floating-point
  numbers. They are not modelled.
- `cached_function` binds positional arguments through Python introspection
  (`__code__.co_varnames`). It is not modelled; `get_or_compute` is.
- pickle and pandas are foreign libraries. A value is opaque: it either pickles
  (`Value.Obj`) or makes `pickle.dumps` raise (`Value.Unpicklable`). Stored bytes either unpickle
  or are `Blob.Garbage`.
- MD5 and `json.dumps(..., sort_keys=True, default=str)` are the `digest` parameter. It is an
  arbitrary deterministic function of the canonical arguments whose result is 8 lowercase hex
  digits. Collision freedom is not assumed.
- TTL expiry over wall-clock time is not simulated, because the code never checks time. Each
  entry records the TTL it was written with.
- `health_check`'s timestamps come from the `now` parameter. A faulting command stands for every
  exception the probe could meet. Sequentially the read test always passes once GET succeeded.
- The batch helper's `DatabaseManager` query is the `fetch` parameter. Its dictionary result is
  a sequence of (id, timeline) pairs. The batch methods accept repeated ids: a later pair is
  stored after an earlier one and wins the merge.
- Batch.ItemsMapValues: it, Batch.MergeSpec and Batch.StoredWithinRequested require distinct
  ids, which a Python dictionary guarantees. Per-item values of a sequence with repeated ids, and
  a bound on its writes, are not stated.
- Batch.FetchAndStore: it takes a ghost `start` tick, the clock value before the lookups.
  Its contract is stated in terms of that tick.
- Backend.Redis: a command that faults is taken never to have reached the server, so its
  effect is not applied. A reply lost after the server ran the command (a timeout, say) is not
  modelled. The "store unchanged on a fault" clauses of Setex, Delete, Flushdb,
  Cache.CacheService.Set, DeleteMatching, InvalidatePattern, ClearAllCache and HealthCheck rest on this,
  and so do the per-step outcome of Cache.DeleteStep and the counts of the invalidation loops.
- Logging is not modelled: every `logger` call, and the branches that only choose a log message
  (for example `workspace_id` in `clear_microtendencias_cache`).
- Concurrency is not modelled. The code has no locking, and concurrent misses simply compute
  twice.
- Glob classes (`?`, `[...]`) and escapes in KEYS patterns are not modelled. The modelled code
  uses only `*`.
- pydantic-settings and dotenv loading of `Settings` is not modelled. This includes
  `model_config`, `.env` files and pydantic's own reading of environment variables by field name.
  Settings start from the declared defaults, and only the explicit overrides in `__init__` are
  applied.
- The module-level `settings` instance and `MLConfig`'s constant tables hold no logic and are not
  modelled.
- `urllib.parse.quote_plus` is the uninterpreted `quotePlus` parameter.
- Text.ParseInt: it accepts an optional sign and ASCII digits only. Python's `int()` also
  accepts surrounding whitespace, digit-group underscores and non-ASCII digits.
- Text.ToLower: it lower-cases ASCII letters only. Python's `str.lower()` covers all of Unicode.
